/** The direct-message screen: a WebSocket connection to the peer chosen in a
    drop-down, a status line, a reconnect counter with capped exponential
    backoff, and an optimistic send that appends the sent text at once. */
module Chat {
  import opened Common

  const MaxReconnectAttempts: nat := 5
  const BaseDelay: nat := 1000
  const MaxDelay: nat := 30000
  /** WebSocket close code of a normal, intentional close. */
  const NormalClosure: int := 1000
  /** Close code the server uses when the token is rejected. */
  const AuthFailedCode: int := 4001

  /** The status line. */
  datatype Status =
    | Disconnected
    | SelectUserPrompt
    | Connecting
    | TokenMissing
    | Connected
    | AuthFailed
    | Reconnecting(attempt: nat)
    | MaxRetriesReached
    | ConnectionError

  function StatusText(s: Status): string {
    match s
    case Disconnected => "Disconnected"
    case SelectUserPrompt => "Select a user to connect"
    case Connecting => "Connecting..."
    case TokenMissing => "Authentication error - No token found"
    case Connected => "Connected"
    case AuthFailed => "Authentication failed"
    case Reconnecting(n) =>
      "Reconnecting... (" + NatToString(n) + "/" + NatToString(MaxReconnectAttempts) + ")"
    case MaxRetriesReached => "Connection Failed - Max retries reached"
    case ConnectionError => "Connection Error"
  }

  /** Only a retry line starts with an `R`. */
  lemma StatusTextInitial(s: Status)
    ensures StatusText(s) != "" && (StatusText(s)[0] == 'R' <==> s.Reconnecting?)
  {
  }

  /** Different states show different status lines, so the line tells the
      user exactly which state the connection is in, including which retry
      is running. */
  lemma StatusTextInjective(a: Status, b: Status)
    requires StatusText(a) == StatusText(b)
    ensures a == b
  {
    StatusTextInitial(a);
    StatusTextInitial(b);
    var prefix := "Reconnecting... (";
    if a.Reconnecting? && b.Reconnecting? {
      var suffix := "/" + NatToString(MaxReconnectAttempts) + ")";
      var x, y := NatToString(a.attempt), NatToString(b.attempt);
      assert StatusText(a) == prefix + (x + suffix);
      assert StatusText(b) == prefix + (y + suffix);
      assert (prefix + (x + suffix))[|prefix|..] == x + suffix;
      assert (prefix + (y + suffix))[|prefix|..] == y + suffix;
      assert |x| == |y|;
      assert (x + suffix)[..|x|] == x;
      assert (y + suffix)[..|y|] == y;
      assert IntToString(a.attempt) == IntToString(b.attempt);
      IntToStringInjective(a.attempt, b.attempt);
    }
  }

  /** `readyState` of the socket the screen holds in its ref. */
  datatype ReadyState = NoSocket | Opening | Open | Closing | Closed

  /** A displayed message. Ids and timestamps are opaque values supplied by
      the caller (the source uses the clock and a random number). */
  datatype Msg = Msg(id: int, sender: string, senderUsername: string, content: string, timestamp: string)

  /** An incoming frame after `JSON.parse`; `Unparseable` is a frame whose
      parse throws. */
  datatype Frame =
    | Unparseable
    | Parsed(kind: string, senderId: string, senderUsername: Option<string>, message: string)

  // ---------------------------------------------------------------------
  // Backoff

  function Pow2(n: nat): (r: nat)
    ensures r >= 1
  {
    if n == 0 then 1 else 2 * Pow2(n - 1)
  }

  /** `Math.min(1000 * 2 ** attempts, 30000)`. */
  function ReconnectDelay(attempts: nat): (r: nat)
    ensures BaseDelay <= r <= MaxDelay
    ensures r <= BaseDelay * Pow2(attempts)
    ensures r == BaseDelay * Pow2(attempts) || r == MaxDelay
  {
    var raw := BaseDelay * Pow2(attempts);
    if raw < MaxDelay then raw else MaxDelay
  }

  lemma {:induction false} Pow2StrictlyIncreasing(a: nat, b: nat)
    requires a < b
    ensures Pow2(a) < Pow2(b)
  {
    if a + 1 < b {
      Pow2StrictlyIncreasing(a, b - 1);
    }
  }

  /** The first five delays are 1 s, 2 s, 4 s, 8 s and 16 s. */
  lemma ReconnectDelayFirstFive()
    ensures ReconnectDelay(0) == 1000
    ensures ReconnectDelay(1) == 2000
    ensures ReconnectDelay(2) == 4000
    ensures ReconnectDelay(3) == 8000
    ensures ReconnectDelay(4) == 16000
  {
    assert Pow2(4) == 16 by {
      assert Pow2(1) == 2;
      assert Pow2(2) == 4;
      assert Pow2(3) == 8;
    }
  }

  /** The delay never decreases as the attempt counter grows. */
  lemma ReconnectDelayMonotone(a: nat, b: nat)
    requires a <= b
    ensures ReconnectDelay(a) <= ReconnectDelay(b)
  {
    if a < b {
      Pow2StrictlyIncreasing(a, b);
    }
  }

  /** Over the attempts that may still retry (0..4) the delay strictly grows. */
  lemma ReconnectDelayStrictlyIncreasing(a: nat, b: nat)
    requires a < b < MaxReconnectAttempts
    ensures ReconnectDelay(a) < ReconnectDelay(b)
  {
    ReconnectDelayFirstFive();
  }

  /** From the fifth attempt on the formula sits at the 30 s cap. */
  lemma ReconnectDelayAtCap(n: nat)
    requires n >= MaxReconnectAttempts
    ensures ReconnectDelay(n) == MaxDelay
  {
    assert Pow2(5) == 32 by {
      assert Pow2(1) == 2;
      assert Pow2(2) == 4;
      assert Pow2(3) == 8;
      assert Pow2(4) == 16;
    }
    if n > 5 {
      Pow2StrictlyIncreasing(5, n);
    }
  }

  // ---------------------------------------------------------------------
  // What `onclose` decides

  datatype CloseOutcome = CloseOutcome(status: Status, retryDelay: Option<nat>)

  /** The status `onclose` leaves and the delay of the reconnect timer it
      arms, if any, for close code `code`, given whether a peer is selected
      and the current attempt counter. */
  function CloseDecision(code: int, userSelected: bool, attempts: nat): (d: CloseOutcome)
    ensures code == AuthFailedCode ==> d.status == AuthFailed && d.retryDelay == None
    ensures code == NormalClosure ==> d.retryDelay == None
    ensures d.retryDelay.Some? <==>
              code != AuthFailedCode && userSelected && code != NormalClosure
              && attempts < MaxReconnectAttempts
    ensures d.retryDelay.Some? ==> d.retryDelay.value == ReconnectDelay(attempts)
    ensures code != AuthFailedCode && attempts >= MaxReconnectAttempts ==>
              d.status == MaxRetriesReached
    ensures code != AuthFailedCode && attempts < MaxReconnectAttempts ==>
              d.status == Disconnected
  {
    if code == AuthFailedCode then CloseOutcome(AuthFailed, None)
    else if userSelected && code != NormalClosure && attempts < MaxReconnectAttempts then
      CloseOutcome(Disconnected, Some(ReconnectDelay(attempts)))
    else if attempts >= MaxReconnectAttempts then CloseOutcome(MaxRetriesReached, None)
    else CloseOutcome(Disconnected, None)
  }

  /** The timer delays of a connection that keeps failing (an abnormal close
      after every attempt, the peer staying selected), starting from the
      counter value `attempts`; each timer bumps the counter by one. */
  function RetryDelays(attempts: nat, code: int): (r: seq<nat>)
    requires code != AuthFailedCode && code != NormalClosure
    ensures |r| == if attempts < MaxReconnectAttempts then MaxReconnectAttempts - attempts else 0
    decreases MaxReconnectAttempts - attempts
  {
    match CloseDecision(code, true, attempts).retryDelay
    case None => []
    case Some(d) => [d] + RetryDelays(attempts + 1, code)
  }

  /** A failing connection retries exactly five times, after 1, 2, 4, 8 and
      16 seconds, and then gives up. */
  lemma RetryScheduleFromZero(code: int)
    requires code != AuthFailedCode && code != NormalClosure
    ensures RetryDelays(0, code) == [1000, 2000, 4000, 8000, 16000]
    ensures CloseDecision(code, true, MaxReconnectAttempts).status == MaxRetriesReached
  {
    ReconnectDelayFirstFive();
    assert RetryDelays(5, code) == [];
    assert RetryDelays(4, code) == [16000];
    assert RetryDelays(3, code) == [8000, 16000];
    assert RetryDelays(2, code) == [4000, 8000, 16000];
    assert RetryDelays(1, code) == [2000, 4000, 8000, 16000];
  }

  // ---------------------------------------------------------------------
  // Message list updates

  /** `onmessage`: a `chat_message` frame appends one entry at the tail;
      any other type, and a frame that does not parse, changes nothing. */
  function AppendIncoming(messages: seq<Msg>, frame: Frame, freshId: int, now: string): (r: seq<Msg>)
    ensures frame.Parsed? && frame.kind == "chat_message" ==>
              |r| == |messages| + 1 && r[..|messages|] == messages
              && r[|messages|] == Msg(freshId, frame.senderId,
                                      OrElse(frame.senderUsername, "Unknown"),
                                      frame.message, now)
    ensures !(frame.Parsed? && frame.kind == "chat_message") ==> r == messages
  {
    match frame
    case Parsed(kind, senderId, senderUsername, message) =>
      if kind == "chat_message" then
        messages + [Msg(freshId, senderId, OrElse(senderUsername, "Unknown"), message, now)]
      else messages
    case Unparseable => messages
  }

  /** Whether `handleSend` (with a peer selected) transmits: the trimmed
      input is non-empty and the socket is open. */
  predicate SendsNow(input: string, socket: ReadyState) {
    Trim(input) != "" && socket == Open
  }

  /** A blank input, as `trim` sees it, is never sent. */
  lemma BlankInputNeverSent(input: string, socket: ReadyState)
    requires AllSpace(input)
    ensures !SendsNow(input, socket)
  {
    TrimEmptyIffAllSpace(input);
  }

  // ---------------------------------------------------------------------
  // The screen's state and its handlers

  /** An armed reconnect timer: the peer and the counter value its
      callback's closure captured. */
  datatype Timer = Timer(peer: string, attempts: nat)

  class ChatSession {
    var selectedUser: string
    var status: Status
    var isConnected: bool
    var attempts: nat
    var socket: ReadyState
    /** The peer whose room the socket in the ref was opened for. */
    var socketPeer: string
    /** Number of sockets created so far (`new WebSocket`). */
    var created: nat
    var messages: seq<Msg>
    var input: string
    /** Payloads sent over the socket, in order (the `message` field). */
    var sent: seq<string>
    /** Armed reconnect timers. */
    var timers: seq<Timer>

    constructor()
      ensures selectedUser == "" && status == Disconnected && !isConnected
      ensures attempts == 0 && socket == NoSocket && socketPeer == "" && created == 0
      ensures messages == [] && input == "" && sent == [] && timers == []
    {
      selectedUser := "";
      status := Disconnected;
      isConnected := false;
      attempts := 0;
      socket := NoSocket;
      socketPeer := "";
      created := 0;
      messages := [];
      input := "";
      sent := [];
      timers := [];
    }

    /** `connectWebSocket` of the effect run that saw `peer` selected: no
        peer, or no stored token, sets the matching status and opens
        nothing; otherwise a new socket to that peer's room is created. */
    method Connect(peer: string, token: Option<string>)
      modifies this
      ensures peer == "" ==>
                status == SelectUserPrompt && socket == old(socket) && socketPeer == old(socketPeer)
                && created == old(created)
      ensures peer != "" && !Truthy(token) ==>
                status == TokenMissing && socket == old(socket) && socketPeer == old(socketPeer)
                && created == old(created)
      ensures peer != "" && Truthy(token) ==>
                status == Connecting && socket == Opening && socketPeer == peer
                && created == old(created) + 1
      ensures selectedUser == old(selectedUser) && isConnected == old(isConnected)
      ensures attempts == old(attempts) && messages == old(messages) && input == old(input)
      ensures sent == old(sent) && timers == old(timers)
    {
      if peer == "" {
        status := SelectUserPrompt;
        return;
      }
      status := Connecting;
      if !Truthy(token) {
        status := TokenMissing;
        return;
      }
      socket := Opening;
      socketPeer := peer;
      created := created + 1;
    }

    /** The effect that runs whenever the peer or the attempt counter
        changes: the current socket is closed with code 1000, and a new
        connection to the selected peer is made when there is one. */
    method RunEffect(token: Option<string>)
      modifies this
      ensures selectedUser == "" ==>
                status == old(status) && created == old(created) && socketPeer == old(socketPeer)
                && socket == (if old(socket) == NoSocket then NoSocket
                              else if old(socket) == Closed then Closed else Closing)
      ensures selectedUser != "" && !Truthy(token) ==>
                status == TokenMissing && created == old(created) && socketPeer == old(socketPeer)
      ensures selectedUser != "" && Truthy(token) ==>
                status == Connecting && socket == Opening && socketPeer == selectedUser
                && created == old(created) + 1
      ensures selectedUser == old(selectedUser) && isConnected == old(isConnected)
      ensures attempts == old(attempts) && messages == old(messages) && input == old(input)
      ensures sent == old(sent) && timers == old(timers)
    {
      if socket == Opening || socket == Open {
        socket := Closing;
      }
      if selectedUser != "" {
        Connect(selectedUser, token);
      }
    }

    /** Picking a peer in the drop-down; choosing the same one again does
        not re-run the effect. */
    method SelectUser(user: string, token: Option<string>)
      modifies this
      ensures selectedUser == user
      ensures user == old(selectedUser) ==>
                status == old(status) && socket == old(socket) && socketPeer == old(socketPeer)
                && created == old(created)
      ensures user != old(selectedUser) && user != "" && Truthy(token) ==>
                status == Connecting && socket == Opening && socketPeer == user
                && created == old(created) + 1
      ensures user != old(selectedUser) && user != "" && !Truthy(token) ==>
                status == TokenMissing && created == old(created)
      ensures user != old(selectedUser) && user == "" ==>
                status == old(status) && created == old(created)
      ensures isConnected == old(isConnected) && attempts == old(attempts)
      ensures messages == old(messages) && input == old(input)
      ensures sent == old(sent) && timers == old(timers)
    {
      if user != selectedUser {
        selectedUser := user;
        RunEffect(token);
      }
    }

    /** `onopen`: "Connected", connected flag set, counter reset to 0. When
        the counter was not already 0 the reset re-runs the effect, which
        closes this socket and opens another. */
    method OnOpen(token: Option<string>)
      modifies this
      ensures isConnected && attempts == 0
      ensures old(attempts) == 0 ==>
                status == Connected && socket == Open && socketPeer == old(socketPeer)
                && created == old(created)
      ensures old(attempts) != 0 && selectedUser != "" && Truthy(token) ==>
                status == Connecting && socket == Opening && socketPeer == selectedUser
                && created == old(created) + 1
      ensures selectedUser == old(selectedUser) && messages == old(messages)
      ensures input == old(input) && sent == old(sent) && timers == old(timers)
    {
      status := Connected;
      isConnected := true;
      socket := Open;
      if attempts != 0 {
        attempts := 0;
        RunEffect(token);
      }
    }

    /** `onmessage`. */
    method OnMessage(frame: Frame, freshId: int, now: string)
      modifies this
      ensures messages == AppendIncoming(old(messages), frame, freshId, now)
      ensures selectedUser == old(selectedUser) && status == old(status)
      ensures isConnected == old(isConnected) && attempts == old(attempts)
      ensures socket == old(socket) && socketPeer == old(socketPeer) && created == old(created)
      ensures input == old(input) && sent == old(sent) && timers == old(timers)
    {
      messages := AppendIncoming(messages, frame, freshId, now);
    }

    /** `onclose` with close code `code`; returns the delay of the reconnect
        timer it arms, if any. The timer's callback keeps the peer and the
        counter of the effect run that made it. */
    method OnClose(code: int) returns (delay: Option<nat>)
      modifies this
      ensures !isConnected && socket == Closed
      ensures delay == CloseDecision(code, selectedUser != "", attempts).retryDelay
      ensures status == CloseDecision(code, selectedUser != "", attempts).status
      ensures timers == old(timers) + (if delay.Some? then [Timer(selectedUser, attempts)] else [])
      ensures selectedUser == old(selectedUser) && attempts == old(attempts)
      ensures socketPeer == old(socketPeer) && created == old(created) && messages == old(messages)
      ensures input == old(input) && sent == old(sent)
    {
      isConnected := false;
      socket := Closed;
      var d := CloseDecision(code, selectedUser != "", attempts);
      status := d.status;
      delay := d.retryDelay;
      if delay.Some? {
        timers := timers + [Timer(selectedUser, attempts)];
      }
    }

    /** The reconnect timer at position `k` fires: the counter is bumped,
        the status says which attempt this is, and the `connectWebSocket`
        of the timer's own effect run connects to the peer that run saw,
        whoever is selected now; the counter change then re-runs the
        effect, which closes that socket and connects to the peer selected
        now, if any. */
    method OnReconnectTimer(k: nat, token: Option<string>)
      requires k < |timers|
      modifies this
      ensures timers == old(timers[..k] + timers[k + 1..])
      ensures attempts == old(attempts) + 1
      ensures var peer := old(timers[k].peer);
              && (peer == "" && selectedUser == "" ==> status == SelectUserPrompt && created == old(created))
              && (peer != "" && !Truthy(token) ==> status == TokenMissing && created == old(created))
              && (peer != "" && Truthy(token) && selectedUser == "" ==>
                    status == Connecting && socket == Closing && socketPeer == peer
                    && created == old(created) + 1)
      ensures selectedUser != "" && Truthy(token) ==>
                status == Connecting && socket == Opening && socketPeer == selectedUser
                && created == old(created) + (if old(timers[k].peer) != "" then 2 else 1)
      ensures selectedUser == old(selectedUser) && isConnected == old(isConnected)
      ensures messages == old(messages) && input == old(input) && sent == old(sent)
    {
      var captured := timers[k];
      timers := timers[..k] + timers[k + 1..];
      attempts := attempts + 1;
      status := Reconnecting(captured.attempts + 1);
      Connect(captured.peer, token);
      RunEffect(token);
    }

    /** `onerror`. */
    method OnError()
      modifies this
      ensures !isConnected && status == ConnectionError
      ensures selectedUser == old(selectedUser) && attempts == old(attempts)
      ensures socket == old(socket) && socketPeer == old(socketPeer)
      ensures created == old(created) && messages == old(messages)
      ensures input == old(input) && sent == old(sent) && timers == old(timers)
    {
      isConnected := false;
      status := ConnectionError;
    }

    /** Typing in the input box. */
    method SetInput(text: string)
      modifies this
      ensures input == text
      ensures selectedUser == old(selectedUser) && status == old(status)
      ensures isConnected == old(isConnected) && attempts == old(attempts)
      ensures socket == old(socket) && socketPeer == old(socketPeer)
      ensures created == old(created) && messages == old(messages)
      ensures sent == old(sent) && timers == old(timers)
    {
      input := text;
    }

    /** `handleSend`. With no peer it only raises the alert (`alerted`).
        Otherwise, when the trimmed input is non-empty and the socket is
        open, the trimmed text is sent, appended at the tail as the local
        user's message, and the input is cleared; in every other case
        nothing changes. */
    method Send(storedUserId: Option<string>, storedUsername: Option<string>, freshId: int, now: string)
      returns (alerted: bool)
      modifies this
      ensures alerted <==> selectedUser == ""
      ensures !alerted && SendsNow(old(input), socket) ==>
                sent == old(sent) + [Trim(old(input))]
                && messages == old(messages) + [Msg(freshId, OrElse(storedUserId, "you"),
                                                    OrElse(storedUsername, "You"),
                                                    Trim(old(input)), now)]
                && input == ""
      ensures alerted || !SendsNow(old(input), socket) ==>
                sent == old(sent) && messages == old(messages) && input == old(input)
      ensures selectedUser == old(selectedUser) && status == old(status)
      ensures isConnected == old(isConnected) && attempts == old(attempts)
      ensures socket == old(socket) && socketPeer == old(socketPeer)
      ensures created == old(created) && timers == old(timers)
    {
      if selectedUser == "" {
        alerted := true;
        return;
      }
      alerted := false;
      if SendsNow(input, socket) {
        var text := Trim(input);
        sent := sent + [text];
        messages := messages + [Msg(freshId, OrElse(storedUserId, "you"),
                                    OrElse(storedUsername, "You"), text, now)];
        input := "";
      }
    }
  }
}
