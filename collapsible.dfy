/** The collapsible chat box: an open/closed panel with a local message list
    that only the box itself appends to. */
module Collapsible {
  import opened Common

  /** `{ id, sender: { id, username }, content, timestamp }`. */
  datatype Entry = Entry(id: int, senderId: int, senderName: string, content: string, timestamp: string)

  /** The name shown for the box's own messages. */
  const OwnName: string := "You"

  class CollapsibleChat {
    /** The `currentUserId` prop. */
    const currentUserId: int
    var isOpen: bool
    var message: string
    var messages: seq<Entry>

    /** Mounting with the `open` prop (false when absent). */
    constructor(open: bool, currentUserId: int)
      ensures this.currentUserId == currentUserId
      ensures isOpen == open && message == "" && messages == []
    {
      this.currentUserId := currentUserId;
      isOpen := open;
      message := "";
      messages := [];
    }

    /** `handleToggle`: flips the panel, so two toggles restore it. */
    method Toggle()
      modifies this
      ensures isOpen == !old(isOpen)
      ensures message == old(message) && messages == old(messages)
    {
      isOpen := !isOpen;
    }

    /** Typing into the input. */
    method SetMessage(text: string)
      modifies this
      ensures message == text
      ensures isOpen == old(isOpen) && messages == old(messages)
    {
      message := text;
    }

    /** `handleSend`: a text that is not blank is appended at the tail as
        typed (untrimmed), under the box's user id and the name "You", and
        the input is cleared; a blank text changes nothing. `freshId` and
        `now` stand for `Date.now()` and the ISO timestamp. */
    method Send(freshId: int, now: string)
      modifies this
      ensures Trim(old(message)) != "" ==>
                messages == old(messages) + [Entry(freshId, currentUserId, OwnName, old(message), now)]
                && message == ""
      ensures Trim(old(message)) == "" ==> messages == old(messages) && message == old(message)
      ensures isOpen == old(isOpen)
    {
      if Trim(message) != "" {
        messages := messages + [Entry(freshId, currentUserId, OwnName, message, now)];
        message := "";
      }
    }
  }
}
