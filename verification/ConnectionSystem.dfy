/** One connection as a step system: the read task, the write task, any number
    of concurrent `create_session` calls and any number of concurrent
    `send_accounting_request` calls on any number of sessions.

    A step is what one task does between two points where another can run.
    Locks and bounded queues are guards: a step that would wait is not enabled.
    The network may fail, a session may be dropped and a call may be cancelled
    at any point where the program allows it. */
module ConnectionSystem {
  import opened Primitives
  import opened Packets
  import opened Framing
  import Channels
  import Sessions
  import Requests = AccountingRequests
  import Replies = AccountingReplies

  /** The key of the connection and everything its peer will ever send. */
  datatype Config = Config(secret: Secret, stream: seq<byte>)

  // ---------- State ----------

  datatype Reader =
    | Reading                          // at the top of the read loop
    | Routing(packet: Packet)          // opened, about to look its session up
    | Delivering(packet: Packet)       // found; holds the read lock of the registry
    | ReaderEnded

  datatype Writer =
    | Taking                           // waiting for the outbound queue
    | Writing(packet: Packet)          // took this packet, writing its bytes
    | WriterEnded(torn: seq<byte>)     // the write failed after these bytes of a frame
    | WriterPanicked                   // the in-place conversion ran past its pad
  {
    predicate Running() {
      Taking? || Writing?
    }
  }

  /** A session and the receiving end of its channel. */
  datatype Session = Session(
    queue: seq<Packet>,
    open: bool,                        // the session has not been dropped
    nextSeq: byte,
    complete: bool,
    holder: Option<nat>,               // the call with the write lock of the receiver
    owner: nat,                        // history: the `create_session` call that made it,
    since: nat,                        //   how much had been routed before that,
    numbered: nat,                     //   how many sequence numbers were drawn,
    marked: bool,                      //   whether its holder called `complete` itself,
    consumed: seq<Packet>)             //   and what its calls have received

  /** One call of `create_session`. */
  datatype Creator =
    | Asking
    | Allowed(allowedAt: nat)
    | Refused
    | Registered(id: u32, allowedAt: nat)
    | Abandoned                        // dropped before it registered anything
  {
    predicate Over() {
      Refused? || Registered? || Abandoned?
    }
  }

  datatype Phase =
    | Begun
    | SenderOpen                       // the outbound channel was open
    | ReceiverOpen                     // had the receiver read lock, receiver was open
    | Passed                           // saw the session incomplete
    | Ready(packet: Packet)            // numbered and serialised
    | Sent
    | Holding                          // has the receiver write lock
    | Parsed(reply: Replies.AccountingReply)
    | Completed(reply: Replies.AccountingReply)
    | ReturnedOk(reply: Replies.AccountingReply)
    | Failed
  {
    predicate HoldsReceiver() {
      Holding? || Parsed? || Completed?
    }

    /** The call has marked the session complete. */
    predicate Succeeded() {
      Completed? || ReturnedOk?
    }

    predicate Over() {
      ReturnedOk? || Failed?
    }
  }

  /** One call of `send_accounting_request`. */
  datatype Call = Call(
    id: u32,
    request: Requests.AccountingRequest,
    phase: Phase,
    begunAt: nat,                      // history: when it began,
    passed: bool,                      //   whether it passed the completion check,
    probedAt: Option<nat>,             //   when it took its receiver read lock,
    lockedAt: Option<nat>,             //   took the receiver write lock,
    endedAt: Option<nat>,              //   and returned,
    number: Option<nat>,               //   which draw of its session numbered it,
    took: Option<nat>)                 //   and which packet of its session it received

  datatype State = State(
    unread: seq<byte>,
    reader: Reader,
    outbound: seq<Packet>,
    writer: Writer,
    wire: seq<byte>,
    accepting: bool,
    alive: bool,                       // the connection object still exists
    sessions: map<u32, Session>,
    creators: map<nat, Creator>,
    calls: map<nat, Call>,
    clock: nat,                        // history: steps taken,
    routed: seq<Packet>,               //   packets the read loop has disposed of,
    submitted: seq<Packet>,            //   packets that entered the outbound queue,
    written: seq<Packet>,              //   packets fully written,
    fellAt: Option<nat>)               //   when the accept flag fell

  function Initial(cfg: Config): State {
    State(cfg.stream, Reading, [], Taking, [], true, true, map[], map[], map[], 0, [], [], [], None)
  }

  // ---------- Steps ----------

  datatype ReaderStep = ReadFrame | ReadFails | LookUp | Deliver
  datatype WriterStep = Take | Write | WriteFails(written: nat)
  datatype CreatorStep = Ask | CheckFlag | Register(id: u32) | Abandon
  datatype CallStep =
    | Begin(id: u32, request: Requests.AccountingRequest)
    | ProbeSender | ProbeReceiver | ReadFlag | TakeNumber | Send
    | Acquire | Receive | Complete | Return | Cancel
  datatype OwnerStep =
    | DisableSessions | DropConnection
    | MarkComplete(id: u32) | DrawNumber(id: u32) | DropSession(id: u32)

  datatype Step =
    | OfReader(r: ReaderStep)
    | OfWriter(w: WriterStep)
    | OfCreator(k: nat, n: CreatorStep)
    | OfCall(c: nat, a: CallStep)
    | OfOwner(o: OwnerStep)

  /** The read loop.  A failed read can strike at any time: it stands for the
      end of the stream as well as for a network error. */
  function ReaderApply(cfg: Config, s: State, step: ReaderStep): Option<State> {
    match step
    case ReadFrame =>
      if !s.reader.Reading? then None
      else (
        match NextFrame(s.unread)
        case Starved => None
        case Rejected(rest) => Some(s.(unread := rest))
        case Framed(packet, rest) => Some(s.(unread := rest, reader := Routing(Open(cfg.secret, packet)))))
    case ReadFails =>
      if s.reader.Reading? then Some(s.(reader := ReaderEnded)) else None
    case LookUp =>
      if !s.reader.Routing? then None
      else if s.reader.packet.header.sessionId in s.sessions then
        Some(s.(reader := Delivering(s.reader.packet)))
      else
        Some(s.(reader := Reading, routed := s.routed + [s.reader.packet]))
    case Deliver =>
      if !s.reader.Delivering? || s.reader.packet.header.sessionId !in s.sessions then None
      else
        var id := s.reader.packet.header.sessionId;
        match Accept(s.sessions[id], s.reader.packet)
        case None => None
        case Some(session) =>
          Some(s.(reader := Reading, routed := s.routed + [s.reader.packet], sessions := s.sessions[id := session]))
  }

  /** `channel.send`: an error, which the loop ignores, when the session is
      gone; a wait when its queue is full. */
  function Accept(session: Session, packet: Packet): Option<Session> {
    if !session.open then Some(session)
    else if |session.queue| < Channels.CAPACITY then Some(session.(queue := session.queue + [packet]))
    else None
  }

  /** The write loop: obfuscation directly follows the receive. */
  function WriterApply(cfg: Config, s: State, step: WriterStep): Option<State> {
    match step
    case Take =>
      if !s.writer.Taking? || s.outbound == [] then None
      else
        var t := s.(outbound := s.outbound[1..]);
        if Seal(cfg.secret, s.outbound[0]).Panicked? then Some(t.(writer := WriterPanicked, outbound := []))
        else Some(t.(writer := Writing(s.outbound[0])))
    case Write =>
      if !s.writer.Writing? || Seal(cfg.secret, s.writer.packet).Panicked? then None
      else
        var bytes := Packets.Encoding(Seal(cfg.secret, s.writer.packet).value);
        Some(s.(writer := Taking, wire := s.wire + bytes, written := s.written + [s.writer.packet]))
    case WriteFails(n) =>
      if !s.writer.Writing? || Seal(cfg.secret, s.writer.packet).Panicked? then None
      else
        var bytes := Packets.Encoding(Seal(cfg.secret, s.writer.packet).value);
        if n >= |bytes| then None
        else Some(s.(writer := WriterEnded(bytes[..n]), outbound := []))
  }

  function NewSession(owner: nat, since: nat): Session {
    Session([], true, Sessions.FIRST_SEQUENCE_NUMBER, false, None, owner, since, 0, false, [])
  }

  function NewCall(id: u32, request: Requests.AccountingRequest, now: nat): Call {
    Call(id, request, Begun, now, false, None, None, None, None, None)
  }

  /** `create_session`: the check and the registration are separate steps, and
      registering needs the write lock that a waiting delivery keeps away.  Up
      to the registration the call can be dropped without a trace. */
  function CreatorApply(s: State, k: nat, step: CreatorStep): Option<State> {
    if !s.alive then None
    else
      match step
      case Ask =>
        if k in s.creators then None else Some(s.(creators := s.creators[k := Asking]))
      case CheckFlag =>
        if k !in s.creators || !s.creators[k].Asking? then None
        else Some(s.(creators := s.creators[k := if s.accepting then Allowed(s.clock) else Refused]))
      case Register(id) =>
        if k !in s.creators || !s.creators[k].Allowed? || s.reader.Delivering? || id in s.sessions then None
        else
          Some(s.(creators := s.creators[k := Registered(id, s.creators[k].allowedAt)],
                  sessions := s.sessions[id := NewSession(k, |s.routed|)]))
      case Abandon =>
        if k !in s.creators || s.creators[k].Over() then None
        else Some(s.(creators := s.creators[k := Abandoned]))
  }

  /** `next_sequence_number`. */
  function Drawn(session: Session): Session {
    session.(nextSeq := Sessions.NextSequenceNumber(session.nextSeq), numbered := session.numbered + 1)
  }

  /** What a call sees of the connection around it. */
  datatype View = View(clock: nat, alive: bool, running: bool, room: bool)

  /** What one step of a call changes: the call, its session, and the packet
      it puts into the outbound queue, if any. */
  datatype Move = Move(call: Call, session: Session, sent: seq<Packet>)

  function Stay(call: Call, session: Session): Option<Move> {
    Some(Move(call, session, []))
  }

  function Fail(v: View, call: Call, session: Session): Option<Move> {
    Stay(call.(phase := Failed, endedAt := Some(v.clock)), session)
  }

  function CallMove(v: View, c: nat, call: Call, session: Session, step: CallStep): Option<Move> {
    match step
    case Begin(_, _) => None
    case ProbeSender =>
      if !call.phase.Begun? then None
      else if v.running then Stay(call.(phase := SenderOpen), session)
      else Fail(v, call, session)
    case ProbeReceiver =>
      if !call.phase.SenderOpen? || session.holder.Some? then None
      else if v.alive then Stay(call.(phase := ReceiverOpen, probedAt := Some(v.clock)), session)
      else Fail(v, call, session)
    case ReadFlag =>
      if !call.phase.ReceiverOpen? then None
      else if session.complete then Fail(v, call, session)
      else Stay(call.(phase := Passed, passed := true), session)
    case TakeNumber =>
      if !call.phase.Passed? then None
      else Stay(call.(phase := Ready(Sessions.RequestPacket(call.id, session.nextSeq, call.request)),
                      number := Some(session.numbered)),
                Drawn(session))
    case Send =>
      if !call.phase.Ready? then None
      else if !v.running then Fail(v, call, session)
      else if v.room then Some(Move(call.(phase := Sent), session, [call.phase.packet]))
      else None
    case Acquire =>
      if !call.phase.Sent? || session.holder.Some? then None
      else Stay(call.(phase := Holding, lockedAt := Some(v.clock)), session.(holder := Some(c)))
    case Receive =>
      if !call.phase.Holding? then None
      else if session.queue != [] then Received(v, call, session)
      else if v.alive then None
      else Fail(v, call, session.(holder := None))
    case Complete =>
      if !call.phase.Parsed? then None
      else Stay(call.(phase := Completed(call.phase.reply)), session.(complete := true))
    case Return =>
      if !call.phase.Completed? then None
      else Stay(call.(phase := ReturnedOk(call.phase.reply), endedAt := Some(v.clock)), session.(holder := None))
    case Cancel =>
      if call.phase.Over() || call.phase.Completed? then None
      else Fail(v, call, if call.phase.HoldsReceiver() then session.(holder := None) else session)
  }

  /** The front packet is taken and decoded; a body that is not a reply ends
      the call, which lets go of the receiver and leaves the session open. */
  function Received(v: View, call: Call, session: Session): Option<Move>
    requires session.queue != []
  {
    var packet := session.queue[0];
    var taken := session.(queue := session.queue[1..], consumed := session.consumed + [packet]);
    var call' := call.(took := Some(|session.consumed|));
    match Replies.Decoding(packet.body)
    case Success(reply) => Stay(call'.(phase := Parsed(reply)), taken)
    case Failure(_) => Fail(v, call', taken.(holder := None))
  }

  function ViewOf(s: State): View {
    View(s.clock, s.alive, s.writer.Running(), |s.outbound| < Channels.CAPACITY)
  }

  function Moved(s: State, c: nat, m: Move): State {
    s.(calls := s.calls[c := m.call], sessions := s.sessions[m.call.id := m.session],
       outbound := s.outbound + m.sent, submitted := s.submitted + m.sent)
  }

  function CallApply(s: State, c: nat, step: CallStep): Option<State> {
    if step.Begin? then
      if c in s.calls || step.id !in s.sessions || !s.sessions[step.id].open then None
      else Some(s.(calls := s.calls[c := NewCall(step.id, step.request, s.clock)]))
    else if c !in s.calls || s.calls[c].id !in s.sessions then None
    else
      match CallMove(ViewOf(s), c, s.calls[c], s.sessions[s.calls[c].id], step)
      case None => None
      case Some(move) => Some(Moved(s, c, move))
  }

  /** What the owner of the connection and the holders of sessions do:
      `handle_connection` lowers the flag once both loops have ended in the
      ordinary way; a panic makes it return without doing so.  Whoever holds a
      session may call its public `complete` and `next_sequence_number`. */
  function OwnerApply(s: State, step: OwnerStep): Option<State> {
    match step
    case DisableSessions =>
      if s.accepting && s.alive && s.reader.ReaderEnded? && s.writer.WriterEnded? then
        Some(s.(accepting := false, fellAt := Some(s.clock)))
      else None
    case MarkComplete(id) =>
      if id in s.sessions && s.sessions[id].open then
        Some(s.(sessions := s.sessions[id := s.sessions[id].(complete := true, marked := true)]))
      else None
    case DrawNumber(id) =>
      if id in s.sessions && s.sessions[id].open then Some(s.(sessions := s.sessions[id := Drawn(s.sessions[id])]))
      else None
    case DropSession(id) =>
      if && id in s.sessions && s.sessions[id].open
         && (forall c :: c in s.calls && s.calls[c].id == id ==> s.calls[c].phase.Over()) then
        Some(s.(sessions := s.sessions[id := s.sessions[id].(queue := [], open := false)]))
      else None
    case DropConnection =>
      if && s.alive && s.reader.ReaderEnded?
         && ((s.writer.WriterEnded? && !s.accepting) || s.writer.WriterPanicked?)
         && (forall k :: k in s.creators ==> s.creators[k].Over()) then
        Some(s.(alive := false))
      else None
  }

  function Act(cfg: Config, s: State, step: Step): Option<State> {
    match step
    case OfReader(r) => ReaderApply(cfg, s, r)
    case OfWriter(w) => WriterApply(cfg, s, w)
    case OfCreator(k, n) => CreatorApply(s, k, n)
    case OfCall(c, a) => CallApply(s, c, a)
    case OfOwner(o) => OwnerApply(s, o)
  }

  /** One step, None when it is not enabled; the clock counts steps. */
  function Apply(cfg: Config, s: State, step: Step): Option<State> {
    match Act(cfg, s, step)
    case Some(t) => Some(t.(clock := s.clock + 1))
    case None => None
  }

  /** A whole schedule from a given state; None unless every step was enabled. */
  function Exec(cfg: Config, s: State, steps: seq<Step>): Option<State> {
    if steps == [] then Some(s)
    else
      match Exec(cfg, s, steps[..|steps| - 1])
      case None => None
      case Some(t) => Apply(cfg, t, steps[|steps| - 1])
  }

  /** The states a connection can reach. */
  function Run(cfg: Config, steps: seq<Step>): Option<State> {
    Exec(cfg, Initial(cfg), steps)
  }
}
