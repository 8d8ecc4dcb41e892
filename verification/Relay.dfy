/** The two proxies as values: a client connection and a backend connection wired to each other by
    callbacks (src/app/load_balancer_handler.cpp, src/app/http_proxy_handler.cpp). Both wire the
    same flow control; they differ in when they dial, in what they do with bytes that arrived
    before the backend answered, and in how a close travels. */
module Relays {
  import opened Wrappers
  import opened Connections
  import opened HttpText

  const MARK: nat := 64 * 1024 * 1024
  const NOT_FOUND := "HTTP/1.1 404 Not Found\r\nContent-Length: 0\r\nConnection: close\r\n\r\n"

  /** LoadBalancerHandler, or HttpProxyHandler with its routing table. */
  datatype Kind = L4 | Http(routes: map<string, string>)

  datatype Side = Front | Back

  datatype Relay = Relay(
    front: Conn,
    back: Conn,               // meaningful once created
    created: bool,            // a backend connection has been made
    attached: bool,           // backend_conn_ is not null
    backendConnected: bool,   // backend_connected_, L4 only
    dialing: bool,            // createBackendConnection is posted, L4 only
    waiting: bool,            // waiting_for_initial_data_, HTTP only
    addr: string)             // the backend address captured by the callbacks, HTTP only

  // ---- Routing ----

  datatype Route = NoRoute | BadAddress | Backend(addr: string)

  function SkipSpaces(s: string): string {
    if s != "" && s[0] in " \t\n\r" + ['\U{000B}', '\U{000C}'] then SkipSpaces(s[1..]) else s
  }

  function LeadingDigits(s: string): string {
    if s != "" && '0' <= s[0] <= '9' then [s[0]] + LeadingDigits(s[1..]) else ""
  }

  function Decimal(digits: string): int {
    if digits == "" then 0
    else 10 * Decimal(digits[..|digits| - 1]) + (digits[|digits| - 1] as int - '0' as int)
  }

  /** Whether std::stoi returns instead of throwing. */
  predicate StoiAccepts(s: string) {
    var t := SkipSpaces(s);
    var negative := t != "" && t[0] == '-';
    var digits := LeadingDigits(if t != "" && t[0] in "+-" then t[1..] else t);
    digits != "" && Decimal(digits) <= (if negative then 0x8000_0000 else 0x7FFF_FFFF)
  }

  function CheckAddress(addr: string): Route {
    match Find(addr, ":", 0)
    case None => BadAddress
    case Some(pos) => if StoiAccepts(addr[pos + 1..]) then Backend(addr) else BadAddress
  }

  function Lookup(routes: map<string, string>, path: string): Route {
    if path in routes then CheckAddress(routes[path])
    else if "/" in routes then CheckAddress(routes["/"])
    else NoRoute
  }

  // ---- Callbacks ----

  /** The handler's onClose. */
  function FrontClosed(kind: Kind, r: Relay): Relay {
    if !r.attached then r
    else if kind == L4 then r.(back := Shutdown(r.back), attached := false)
    else r.(attached := false)
  }

  /** One callback of one side, as wired by setupBidirectionalRelay. */
  function Report(kind: Kind, r: Relay, side: Side, cb: Callback): Relay {
    match side
    case Back =>
      (match cb
       case WriteComplete => r.(front := StartRead(r.front))
       case HighWater => r.(front := StopRead(r.front))
       case OnClose => r
       case Closed => if kind == L4 then r.(front := Shutdown(r.front)) else r)
    case Front =>
      (match cb
       case WriteComplete => if r.attached then r.(back := StartRead(r.back)) else r
       case HighWater => if r.attached then r.(back := StopRead(r.back)) else r
       case OnClose => FrontClosed(kind, r)
       case Closed => r)
  }

  function Reports(kind: Kind, r: Relay, side: Side, cbs: seq<Callback>): Relay
    decreases |cbs|
  {
    if cbs == [] then r else Reports(kind, Report(kind, r, side, cbs[0]), side, cbs[1..])
  }

  function SetSide(r: Relay, side: Side, c: Conn): Relay {
    if side == Front then r.(front := c) else r.(back := c)
  }

  /** A call on one connection, followed by the callbacks it made. */
  function Then(kind: Kind, r: Relay, side: Side, o: Outcome): Relay {
    Reports(kind, SetSide(r, side, o.0), side, o.1)
  }

  // ---- The handlers ----

  /** createBackendConnection once socket and connect have not failed. */
  function CreateBackend(r: Relay, addr: string): Relay {
    r.(back := ConnectEstablishedAsClient(New(MARK)), created := true, attached := true,
       waiting := false, addr := addr)
  }

  /** startForwarding. `dials` says whether socket and connect succeed. */
  function StartForwarding(kind: Kind, r: Relay, path: string, dials: bool, w: WriteResult): Relay
    requires kind.Http?
  {
    match Lookup(kind.routes, path)
    case NoRoute =>
      var r' := Then(kind, r, Front, Send(r.front, NOT_FOUND, w));
      r'.(front := Shutdown(r'.front))
    case BadAddress => r
    case Backend(addr) => if dials then CreateBackend(r, addr) else r
  }

  /** onMessage of the handler, after a read on the client side. */
  function OnMessage(kind: Kind, r: Relay, dials: bool, w: WriteResult): Relay {
    match kind
    case L4 =>
      if r.attached && r.backendConnected then Forward(kind, r, r.front.input, w) else r
    case Http(routes) =>
      if r.waiting then
        var host := ParseHeader(r.front.input, "Host");
        var path := ParsePath(r.front.input);
        if host == "" || path == "" then r else StartForwarding(kind, r, path, dials, w)
      else if r.attached && r.back.state == Connected then Forward(kind, r, r.front.input, w)
      else r
  }

  /** Empties the client's input queue and sends `data` to the backend. */
  function Forward(kind: Kind, r: Relay, data: Bytes, w: WriteResult): Relay {
    var r' := r.(front := Consume(r.front));
    Then(kind, r', Back, Send(r'.back, data, w))
  }

  /** The connection callback of the backend: bytes that came early go out now. */
  function BackendUp(kind: Kind, r: Relay, w: WriteResult): Relay {
    var r' := if kind == L4 then r.(backendConnected := true) else r;
    if r'.front.input == [] then r'
    else Forward(kind, r', if kind == L4 then r'.front.input else ModifyRequest(r'.front.input, r'.addr), w)
  }

  /** The message callback of the backend. */
  function Respond(kind: Kind, r: Relay, w: WriteResult): Relay {
    var data := r.back.input;
    var r' := r.(back := Consume(r.back));
    if r'.front.state == Connected then Then(kind, r', Front, Send(r'.front, data, w)) else r'
  }

  // ---- Events ----

  /** Everything that can happen to a pair. Reads are one readFd at a time, and may come while
      reading is off: handleRead goes on until EAGAIN, and an event may already have been reported.
      Dial and Timeout are the posted createBackendConnection and the idle timers of the balancer. */
  datatype Event =
    | Dial(succeeds: bool)
    | Timeout
    | FrontReadable(fr: ReadResult, dials: bool, fw: WriteResult)
    | FrontWritable(fws: seq<WriteResult>)
    | FrontError
    | BackReadable(br: ReadResult, bw: WriteResult)
    | BackWritable(bws: seq<WriteResult>)
    | BackError

  /** The backend's descriptor is watched, and its connect has completed. A connect that fails ends
      the run in the source. */
  predicate BackOpen(r: Relay) {
    r.attached && r.back.state != Connecting
  }

  function Step(kind: Kind, r: Relay, e: Event): Relay {
    match e
    case Dial(succeeds) =>
      if !r.dialing then r
      else if succeeds then CreateBackend(r, "").(dialing := false)
      else r.(front := Shutdown(r.front), dialing := false)
    case Timeout => if kind == L4 then r.(front := Shutdown(r.front)) else r
    case FrontReadable(fr, dials, w) =>
      if fr.Got? then OnMessage(kind, r.(front := Receive(r.front, fr.data)), dials, w)
      else if fr == Drained then r
      else Then(kind, r, Front, Close(r.front))
    case FrontWritable(ws) => Then(kind, r, Front, Flush(r.front, ws))
    case FrontError => Then(kind, r, Front, Close(r.front))
    case BackReadable(br, w) =>
      if !BackOpen(r) || br == Drained then r
      else if br.Got? then Respond(kind, r.(back := Receive(r.back, br.data)), w)
      else Then(kind, r, Back, Close(r.back))
    case BackWritable(ws) =>
      if !r.attached then r
      else if r.back.state == Connecting then
        BackendUp(kind, r.(back := ConnectCompleted(r.back)), if ws == [] then WouldBlock else ws[0])
      else Then(kind, r, Back, Flush(r.back, ws))
    case BackError => if BackOpen(r) then Then(kind, r, Back, Close(r.back)) else r
  }

  /** A client connection just accepted. `chosen` says whether the balancer had a backend to offer. */
  function Start(kind: Kind, chosen: bool): Relay {
    var front := ConnectEstablished(New(MARK));
    Relay(if kind == L4 && !chosen then Shutdown(front) else front, New(MARK),
          false, false, false, kind == L4 && chosen, kind != L4, "")
  }

  function Run(kind: Kind, r: Relay, es: seq<Event>): Relay
    decreases |es|
  {
    if es == [] then r else Run(kind, Step(kind, r, es[0]), es[1..])
  }

  // ---- What holds between events ----

  /** What the backend must be given for what the client has sent. */
  function Target(kind: Kind, r: Relay): Bytes {
    if kind == L4 then r.front.received else ModifyRequest(r.front.received, r.addr)
  }

  ghost predicate Shape(kind: Kind, r: Relay) {
    && Sound(r.front) && Sound(r.back) && r.front.mark == MARK && r.back.mark == MARK
    && r.front.state != Connecting
    && (r.attached ==> r.created)
    && (r.created && r.front.state != Disconnected ==> r.attached)
    && (!r.created ==> r.back == New(MARK))
    && r.waiting == (kind != L4 && !r.created)
    && (r.dialing ==> kind == L4 && !r.created)
    && (r.back.state == Disconnecting ==> r.front.state == Disconnected && !r.attached)
    && (r.attached && r.back.state == Connecting ==> r.back.writing)
    && (kind == L4 ==> r.backendConnected == (r.back.state != Connecting))
  }

  /** Client to backend. */
  ghost predicate Upstream(kind: Kind, r: Relay) {
    && (!r.created || (r.attached && r.back.state == Connecting) ==> r.front.input == r.front.received)
    && (r.attached && r.back.state == Connected ==> r.front.input == [] && Handed(r.back) == Target(kind, r))
    && (r.created ==> Handed(r.back) <= Target(kind, r))
  }

  /** Backend to client. */
  ghost predicate Downstream(kind: Kind, r: Relay) {
    && r.back.input == []
    && (r.created ==> Handed(r.front) <= r.back.received)
    && (r.front.state == Connected ==> Handed(r.front) == r.back.received)
    && (kind == L4 && !r.created ==> Handed(r.front) == [])
  }

  /** The path that was routed is the path of the whole stream, and a client that was told 404 was
      told so once and has no backend. */
  ghost predicate Routed(kind: Kind, r: Relay) {
    kind.Http? ==>
      && (r.created || Handed(r.front) != [] ==>
            ParseHeader(r.front.received, "Host") != "" && ParsePath(r.front.received) != "")
      && (r.created ==> Lookup(kind.routes, ParsePath(r.front.received)) == Backend(r.addr))
      && (!r.created && Handed(r.front) != [] ==>
            Handed(r.front) == NOT_FOUND && Lookup(kind.routes, ParsePath(r.front.received)) == NoRoute)
  }

  /** A paused client has a backend with bytes to write, and a backend that holds the mark has a paused
      client. */
  ghost predicate FlowUp(r: Relay) {
    (r.front.reading || r.back.output != []) && (|r.back.output| >= MARK ==> !r.front.reading)
  }

  /** The same the other way round. */
  ghost predicate FlowDown(r: Relay) {
    (r.back.reading || r.front.output != []) && (|r.front.output| >= MARK ==> !r.back.reading)
  }

  /** Closed-loop flow control. A client that is shutting down still takes what waits for it. */
  ghost predicate Flow(r: Relay) {
    && (r.front.state == Connected && r.back.state == Connecting ==> r.front.reading)
    && (r.front.state == Connected && r.back.state == Connected ==> FlowUp(r))
    && (r.front.state != Disconnected && r.back.state == Connected ==> FlowDown(r))
  }

  ghost predicate Inv(kind: Kind, r: Relay) {
    Shape(kind, r) && Upstream(kind, r) && Downstream(kind, r) && Routed(kind, r) && Flow(r)
  }

  // ---- Calls on one side, and what they do to the other ----

  ghost predicate Marked(r: Relay) {
    Sound(r.front) && Sound(r.back) && r.front.mark == MARK && r.back.mark == MARK
  }

  /** A call on the backend that offers it `msg`: the client connection only has its reading turned
      on or off, or is shut down because the backend died. */
  ghost predicate BackCall(kind: Kind, r: Relay, r': Relay, msg: Bytes) {
    && r' == r.(front := r'.front, back := r'.back)
    && Marked(r')
    && r'.front == r.front.(state := r'.front.state, reading := r'.front.reading)
    && (r.front.state != Connected ==> r'.front == r.front)
    && (r'.front.state == r.front.state
        || (r.front.state == Connected && r'.front.state == Disconnecting && r'.back.state == Disconnected))
    && r'.back.input == r.back.input && r'.back.received == r.back.received
    && (r'.back.state == r.back.state || r'.back.state == Disconnected)
    && Handed(r'.back) == Handed(r.back) + (if r.back.state == Connected && r'.back.state == Connected then msg else [])
    && (r'.back.state == r.back.state ==> r'.back.reading == r.back.reading)
    && (r'.front.state == Connected && r'.back.state == Connected && FlowUp(r) ==> FlowUp(r'))
  }

  /** A call on the client connection that offers it `msg`: the backend only has its reading turned
      on or off, or is let go because the client connection died. */
  ghost predicate FrontCall(kind: Kind, r: Relay, r': Relay, msg: Bytes) {
    && r' == r.(front := r'.front, back := r'.back, attached := r'.attached)
    && Marked(r')
    && r'.back == r.back.(state := r'.back.state, reading := r'.back.reading)
    && (r'.back.state == r.back.state || (r.back.state == Connected && r'.back.state == Disconnecting))
    && (r'.front.state == r.front.state ==> r'.front.reading == r.front.reading)
    && r'.front.input == r.front.input && r'.front.received == r.front.received
    && Handed(r'.front)
       == Handed(r.front) + (if r.front.state == Connected && r'.front.state == Connected then msg else [])
    && (if r'.front.state == r.front.state then
          && (r'.attached == r.attached || (r.front.state == Disconnected && !r'.attached))
          && r'.back.state == r.back.state
        else r'.front.state == Disconnected && !r'.attached)
    && (!r.attached ==> r'.back == r.back)
    && (r'.front.state != Disconnected && r'.attached && r'.back.state == Connected && FlowDown(r) ==> FlowDown(r'))
  }

  lemma ReportsOne(kind: Kind, r: Relay, side: Side, cb: Callback)
    ensures Reports(kind, r, side, [cb]) == Report(kind, r, side, cb)
  {
    assert [cb][1..] == [];
  }

  lemma ReportsTwo(kind: Kind, r: Relay, side: Side, cb: Callback, cb': Callback)
    ensures Reports(kind, r, side, [cb, cb']) == Report(kind, Report(kind, r, side, cb), side, cb')
  {
    assert [cb, cb'][1..] == [cb'];
    ReportsOne(kind, Report(kind, r, side, cb), side, cb');
  }

  lemma ThenCases(kind: Kind, r: Relay, side: Side, o: Outcome)
    ensures o.1 == [] ==> Then(kind, r, side, o) == SetSide(r, side, o.0)
    ensures forall cb :: o.1 == [cb] ==> Then(kind, r, side, o) == Report(kind, SetSide(r, side, o.0), side, cb)
    ensures o.1 == [OnClose, Closed]
        ==> Then(kind, r, side, o) == Report(kind, Report(kind, SetSide(r, side, o.0), side, OnClose), side, Closed)
  {
    if |o.1| == 1 {
      assert o.1 == [o.1[0]];
      ReportsOne(kind, SetSide(r, side, o.0), side, o.1[0]);
    }
    ReportsTwo(kind, SetSide(r, side, o.0), side, OnClose, Closed);
  }

  lemma FairBack(kind: Kind, r: Relay, o: Outcome, msg: Bytes)
    requires Marked(r) && r.back.state != Connecting && r.front.state != Connecting && Fair(r.back, o, msg)
    ensures BackCall(kind, r, Then(kind, r, Back, o), msg)
  {
    if o.1 == [] {
      NoReportBack(kind, r, o, msg);
    } else if |o.1| == 1 {
      assert o.1 == [o.1[0]];
      ReportsOne(kind, SetSide(r, Back, o.0), Back, o.1[0]);
      OneReportBack(kind, r, o, o.1[0], msg);
    } else {
      ReportsTwo(kind, SetSide(r, Back, o.0), Back, OnClose, Closed);
      TwoReportsBack(kind, r, o, msg);
    }
  }

  lemma NoReportBack(kind: Kind, r: Relay, o: Outcome, msg: Bytes)
    requires Marked(r) && r.back.state != Connecting && r.front.state != Connecting && Fair(r.back, o, msg) && o.1 == []
    ensures BackCall(kind, r, SetSide(r, Back, o.0), msg)
  {}

  lemma TwoReportsBack(kind: Kind, r: Relay, o: Outcome, msg: Bytes)
    requires Marked(r) && r.back.state != Connecting && r.front.state != Connecting
    requires Fair(r.back, o, msg) && o.1 == [OnClose, Closed]
    ensures BackCall(kind, r, Report(kind, Report(kind, SetSide(r, Back, o.0), Back, OnClose), Back, Closed), msg)
  {
    BackDied(kind, r, o.0, msg);
  }

  lemma BackDied(kind: Kind, r: Relay, c: Conn, msg: Bytes)
    requires Marked(r) && Sound(c) && c.state == Disconnected && c.mark == MARK
    requires c.input == r.back.input && c.received == r.back.received && Handed(c) == Handed(r.back)
    ensures BackCall(kind, r, r.(back := c, front := if kind == L4 then Shutdown(r.front) else r.front), msg)
  {}

  lemma OneReportBack(kind: Kind, r: Relay, o: Outcome, cb: Callback, msg: Bytes)
    requires Marked(r) && r.back.state != Connecting && r.front.state != Connecting
    requires Fair(r.back, o, msg) && o.1 == [cb]
    ensures BackCall(kind, r, Report(kind, SetSide(r, Back, o.0), Back, cb), msg)
  {
    match cb
    case WriteComplete => OutputEmptied(kind, r, o, msg);
    case HighWater => OutputFilled(kind, r, o, msg);
    case Closed => assert o.0 == r.back;
  }

  lemma OutputEmptied(kind: Kind, r: Relay, o: Outcome, msg: Bytes)
    requires Marked(r) && r.back.state != Connecting && r.front.state != Connecting
    requires Fair(r.back, o, msg) && o.1 == [WriteComplete]
    ensures BackCall(kind, r, r.(back := o.0, front := StartRead(r.front)), msg)
  {
    assert o.0.output == [];
  }

  lemma OutputFilled(kind: Kind, r: Relay, o: Outcome, msg: Bytes)
    requires Marked(r) && r.back.state != Connecting && r.front.state != Connecting
    requires Fair(r.back, o, msg) && o.1 == [HighWater]
    ensures BackCall(kind, r, r.(back := o.0, front := StopRead(r.front)), msg)
  {
    assert |o.0.output| >= MARK;
  }

  lemma FairFront(kind: Kind, r: Relay, o: Outcome, msg: Bytes)
    requires Marked(r) && r.front.state != Connecting && Fair(r.front, o, msg)
    ensures FrontCall(kind, r, Then(kind, r, Front, o), msg)
  {
    if o.1 == [] {
      NoReportFront(kind, r, o, msg);
    } else if |o.1| == 1 {
      assert o.1 == [o.1[0]];
      ReportsOne(kind, SetSide(r, Front, o.0), Front, o.1[0]);
      OneReportFront(kind, r, o, o.1[0], msg);
    } else {
      ReportsTwo(kind, SetSide(r, Front, o.0), Front, OnClose, Closed);
      TwoReportsFront(kind, r, o, msg);
    }
  }

  lemma NoReportFront(kind: Kind, r: Relay, o: Outcome, msg: Bytes)
    requires Marked(r) && r.front.state != Connecting && Fair(r.front, o, msg) && o.1 == []
    ensures FrontCall(kind, r, SetSide(r, Front, o.0), msg)
  {}

  lemma TwoReportsFront(kind: Kind, r: Relay, o: Outcome, msg: Bytes)
    requires Marked(r) && r.front.state != Connecting && Fair(r.front, o, msg) && o.1 == [OnClose, Closed]
    ensures FrontCall(kind, r, Report(kind, Report(kind, SetSide(r, Front, o.0), Front, OnClose), Front, Closed), msg)
  {}

  lemma OneReportFront(kind: Kind, r: Relay, o: Outcome, cb: Callback, msg: Bytes)
    requires Marked(r) && r.front.state != Connecting && Fair(r.front, o, msg) && o.1 == [cb]
    ensures FrontCall(kind, r, Report(kind, SetSide(r, Front, o.0), Front, cb), msg)
  {
    match cb
    case WriteComplete => assert o.0.output == [];
    case HighWater => assert |o.0.output| >= MARK;
    case Closed => assert o.0 == r.front;
  }

  lemma SendBack(kind: Kind, r: Relay, msg: Bytes, w: WriteResult)
    requires Marked(r) && r.back.state != Connecting && r.front.state != Connecting
    ensures BackCall(kind, r, Then(kind, r, Back, Send(r.back, msg, w)), msg)
  {
    SendIsFair(r.back, msg, w);
    FairBack(kind, r, Send(r.back, msg, w), msg);
  }

  lemma FlushBack(kind: Kind, r: Relay, ws: seq<WriteResult>)
    requires Marked(r) && r.back.state != Connecting && r.front.state != Connecting
    ensures BackCall(kind, r, Then(kind, r, Back, Flush(r.back, ws)), [])
  {
    FlushIsFair(r.back, ws);
    FairBack(kind, r, Flush(r.back, ws), []);
  }

  lemma CloseBack(kind: Kind, r: Relay)
    requires Marked(r) && r.back.state != Connecting && r.front.state != Connecting
    ensures BackCall(kind, r, Then(kind, r, Back, Close(r.back)), [])
  {
    CloseIsFair(r.back);
    FairBack(kind, r, Close(r.back), []);
  }

  lemma SendFront(kind: Kind, r: Relay, msg: Bytes, w: WriteResult)
    requires Marked(r) && r.front.state != Connecting
    ensures FrontCall(kind, r, Then(kind, r, Front, Send(r.front, msg, w)), msg)
  {
    SendIsFair(r.front, msg, w);
    FairFront(kind, r, Send(r.front, msg, w), msg);
  }

  lemma FlushFront(kind: Kind, r: Relay, ws: seq<WriteResult>)
    requires Marked(r) && r.front.state != Connecting
    ensures FrontCall(kind, r, Then(kind, r, Front, Flush(r.front, ws)), [])
  {
    FlushIsFair(r.front, ws);
    FairFront(kind, r, Flush(r.front, ws), []);
  }

  lemma CloseFront(kind: Kind, r: Relay)
    requires Marked(r) && r.front.state != Connecting
    ensures FrontCall(kind, r, Then(kind, r, Front, Close(r.front)), [])
  {
    CloseIsFair(r.front);
    FairFront(kind, r, Close(r.front), []);
  }

  // ---- Every event keeps the invariant ----

  /** Bytes offered to the backend are what was missing from the target. */
  lemma BackCallKeeps(kind: Kind, r: Relay, r': Relay, msg: Bytes)
    requires Shape(kind, r) && Downstream(kind, r) && Routed(kind, r)
    requires r.attached && r.back.state != Connecting && BackCall(kind, r, r', msg)
    requires Handed(r.back) <= Target(kind, r)
    requires r.back.state == Connected ==> r.front.input == [] && Handed(r.back) + msg == Target(kind, r)
    requires Flow(r)
    ensures Inv(kind, r')
  {}

  lemma FrontCallKeeps(kind: Kind, r: Relay, r': Relay, msg: Bytes)
    requires Shape(kind, r) && Upstream(kind, r) && Flow(r) && r.back.input == []
    requires r.created && FrontCall(kind, r, r', msg)
    requires Routed(kind, r)
    requires Handed(r.front) <= r.back.received
    requires r.front.state == Connected ==> Handed(r.front) + msg == r.back.received
    ensures Inv(kind, r')
  {}

  lemma FrontCallBefore(kind: Kind, r: Relay, r': Relay)
    requires Inv(kind, r) && !r.created && FrontCall(kind, r, r', [])
    ensures Inv(kind, r')
  {}

  /** Later bytes change neither the route nor what was already rewritten. */
  lemma MoreReceived(kind: Kind, r: Relay, data: Bytes)
    requires Inv(kind, r)
    ensures var r' := r.(front := Receive(r.front, data));
      && Routed(kind, r')
      && (r.created ==> Target(kind, r') == Target(kind, r) + data)
  {
    if kind.Http? && (r.created || Handed(r.front) != []) {
      HeaderStable(r.front.received, data, "Host");
      PathStable(r.front.received, data);
      HostParsedMeansComplete(r.front.received);
      RewriteThenForward(r.front.received, data, r.addr);
    }
  }

  lemma OnForward(kind: Kind, r: Relay, data: Bytes, w: WriteResult)
    requires Shape(kind, r) && Downstream(kind, r) && Routed(kind, r)
    requires r.attached && r.back.state != Connecting
    requires Handed(r.back) <= Target(kind, r)
    requires r.back.state == Connected ==> Handed(r.back) + data == Target(kind, r)
    requires Flow(r)
    ensures Inv(kind, Forward(kind, r, data, w))
  {
    var r' := r.(front := Consume(r.front));
    SendBack(kind, r', data, w);
    BackCallKeeps(kind, r', Forward(kind, r, data, w), data);
  }

  lemma OnCreate(kind: Kind, r: Relay, addr: string)
    requires Shape(kind, r) && Upstream(kind, r) && Downstream(kind, r) && Routed(kind, r)
    requires !r.created
    requires Handed(r.front) == [] && (r.front.state == Connected ==> r.front.reading)
    requires kind.Http? ==>
               && ParseHeader(r.front.received, "Host") != "" && ParsePath(r.front.received) != ""
               && Lookup(kind.routes, ParsePath(r.front.received)) == Backend(addr)
    ensures Inv(kind, CreateBackend(r, addr).(dialing := false))
  {}

  lemma OnNotFound(kind: Kind, r: Relay, w: WriteResult)
    requires kind.Http? && Inv(kind, r) && !r.created
    requires ParseHeader(r.front.received, "Host") != "" && ParsePath(r.front.received) != ""
    requires Lookup(kind.routes, ParsePath(r.front.received)) == NoRoute
    ensures Inv(kind, StartForwarding(kind, r, ParsePath(r.front.received), false, w))
    ensures forall dials :: StartForwarding(kind, r, ParsePath(r.front.received), dials, w)
                         == StartForwarding(kind, r, ParsePath(r.front.received), false, w)
  {
    SendFront(kind, r, NOT_FOUND, w);
  }

  lemma OnFrontBytes(kind: Kind, r: Relay, data: Bytes, dials: bool, w: WriteResult)
    requires Inv(kind, r)
    ensures Inv(kind, OnMessage(kind, r.(front := Receive(r.front, data)), dials, w))
  {
    var r1 := r.(front := Receive(r.front, data));
    MoreReceived(kind, r, data);
    if !r.created {
      assert Inv(kind, r1);
      if r.waiting && ParseHeader(r1.front.input, "Host") != "" && ParsePath(r1.front.input) != "" {
        match Lookup(kind.routes, ParsePath(r1.front.input))
        case NoRoute => OnNotFound(kind, r1, w);
        case BadAddress =>
        case Backend(addr) => if dials { OnCreate(kind, r1, addr); }
      }
    } else if r.attached && r.back.state != Connecting {
      assert r.back.state == Connected ==> Handed(r.back) + data == Target(kind, r1) && r1.front.input == data;
      if kind == L4 || r.back.state == Connected {
        OnForward(kind, r1, r1.front.input, w);
      }
    }
  }

  lemma OnBackUp(kind: Kind, r: Relay, w: WriteResult)
    requires Inv(kind, r) && r.attached && r.back.state == Connecting
    ensures Inv(kind, BackendUp(kind, r.(back := ConnectCompleted(r.back)), w))
  {
    var r1 := r.(back := ConnectCompleted(r.back));
    var r2 := if kind == L4 then r1.(backendConnected := true) else r1;
    if r2.front.input != [] {
      OnForward(kind, r2, if kind == L4 then r2.front.input else ModifyRequest(r2.front.input, r2.addr), w);
    }
  }

  lemma OnBackBytes(kind: Kind, r: Relay, data: Bytes, w: WriteResult)
    requires Inv(kind, r) && BackOpen(r)
    ensures Inv(kind, Respond(kind, r.(back := Receive(r.back, data)), w))
  {
    var r1 := r.(back := Consume(Receive(r.back, data)));
    assert r.(back := Receive(r.back, data)).back.input == data;
    if r.front.state == Connected {
      SendFront(kind, r1, data, w);
      FrontCallKeeps(kind, r1, Then(kind, r1, Front, Send(r1.front, data, w)), data);
    }
  }

  lemma OnFrontCall(kind: Kind, r: Relay, r': Relay)
    requires Inv(kind, r) && FrontCall(kind, r, r', [])
    ensures Inv(kind, r')
  {
    if r.created {
      FrontCallKeeps(kind, r, r', []);
    } else {
      FrontCallBefore(kind, r, r');
    }
  }

  lemma OnBackCall(kind: Kind, r: Relay, r': Relay)
    requires Inv(kind, r) && BackOpen(r) && BackCall(kind, r, r', [])
    ensures Inv(kind, r')
  {
    BackCallKeeps(kind, r, r', []);
  }

  lemma FrontStepKeepsInv(kind: Kind, r: Relay, e: Event)
    requires Inv(kind, r) && (e.FrontReadable? || e.FrontWritable? || e.FrontError?)
    ensures Inv(kind, Step(kind, r, e))
  {
    match e
    case FrontReadable(fr, dials, w) =>
      if fr.Got? {
        OnFrontBytes(kind, r, fr.data, dials, w);
      } else if fr != Drained {
        CloseFront(kind, r);
        OnFrontCall(kind, r, Then(kind, r, Front, Close(r.front)));
      }
    case FrontWritable(ws) =>
      FlushFront(kind, r, ws);
      OnFrontCall(kind, r, Then(kind, r, Front, Flush(r.front, ws)));
    case FrontError =>
      CloseFront(kind, r);
      OnFrontCall(kind, r, Then(kind, r, Front, Close(r.front)));
  }

  lemma CloseBackKeepsInv(kind: Kind, r: Relay)
    requires Inv(kind, r) && BackOpen(r)
    ensures Inv(kind, Then(kind, r, Back, Close(r.back)))
  {
    CloseBack(kind, r);
    OnBackCall(kind, r, Then(kind, r, Back, Close(r.back)));
  }

  lemma FlushBackKeepsInv(kind: Kind, r: Relay, ws: seq<WriteResult>)
    requires Inv(kind, r) && BackOpen(r)
    ensures Inv(kind, Then(kind, r, Back, Flush(r.back, ws)))
  {
    FlushBack(kind, r, ws);
    OnBackCall(kind, r, Then(kind, r, Back, Flush(r.back, ws)));
  }

  lemma BackReadKeepsInv(kind: Kind, r: Relay, br: ReadResult, w: WriteResult)
    requires Inv(kind, r)
    ensures Inv(kind, Step(kind, r, BackReadable(br, w)))
  {
    if BackOpen(r) {
      if br.Got? {
        OnBackBytes(kind, r, br.data, w);
      } else if br != Drained {
        CloseBackKeepsInv(kind, r);
      }
    }
  }

  lemma BackWriteKeepsInv(kind: Kind, r: Relay, ws: seq<WriteResult>)
    requires Inv(kind, r)
    ensures Inv(kind, Step(kind, r, BackWritable(ws)))
  {
    if BackOpen(r) {
      FlushBackKeepsInv(kind, r, ws);
    } else if r.attached {
      OnBackUp(kind, r, if ws == [] then WouldBlock else ws[0]);
    }
  }

  lemma {:induction false} StepKeepsInv(kind: Kind, r: Relay, e: Event)
    requires Inv(kind, r)
    ensures Inv(kind, Step(kind, r, e))
  {
    match e
    case Dial(succeeds) => if r.dialing && succeeds { OnCreate(kind, r, ""); }
    case Timeout =>
    case FrontReadable(_, _, _) => FrontStepKeepsInv(kind, r, e);
    case FrontWritable(_) => FrontStepKeepsInv(kind, r, e);
    case FrontError => FrontStepKeepsInv(kind, r, e);
    case BackReadable(br, w) => BackReadKeepsInv(kind, r, br, w);
    case BackWritable(ws) => BackWriteKeepsInv(kind, r, ws);
    case BackError => if BackOpen(r) { CloseBackKeepsInv(kind, r); }
  }

  // ---- Results over every run ----

  lemma {:induction false} RunKeepsInv(kind: Kind, r: Relay, es: seq<Event>)
    requires Inv(kind, r)
    ensures Inv(kind, Run(kind, r, es))
    decreases |es|
  {
    if es != [] {
      StepKeepsInv(kind, r, es[0]);
      RunKeepsInv(kind, Step(kind, r, es[0]), es[1..]);
    }
  }

  function After(kind: Kind, chosen: bool, es: seq<Event>): Relay {
    Run(kind, Start(kind, chosen), es)
  }

  lemma Reached(kind: Kind, chosen: bool, es: seq<Event>)
    ensures Inv(kind, After(kind, chosen, es))
  {
    RunKeepsInv(kind, Start(kind, chosen), es);
  }

  /** The balancer loses, repeats and reorders nothing, however the kernel splits reads and writes
      and whenever the backend answers. */
  lemma L4RelaysTheStream(chosen: bool, es: seq<Event>)
    ensures var r := After(L4, chosen, es);
      // Client to backend: a prefix always, everything while the backend is open.
      && Handed(r.back) <= r.front.received
      && (r.attached && r.back.state == Connected ==>
            r.front.input == [] && r.back.accepted + r.back.output == r.front.received)
      // Bytes that come before the backend answers wait in the client's input queue.
      && (!r.created || (r.attached && r.back.state == Connecting) ==> r.front.input == r.front.received)
      // Backend to client.
      && Handed(r.front) <= r.back.received
      && (r.front.state == Connected ==> r.front.accepted + r.front.output == r.back.received)
  {
    Reached(L4, chosen, es);
  }

  /** The backend of an HTTP client is given the client's whole stream with one host line rewritten:
      the address is the route of the path of that stream. */
  lemma HttpRelaysTheRewrittenStream(routes: map<string, string>, es: seq<Event>)
    ensures var r := After(Http(routes), true, es);
      && (r.created ==> Lookup(routes, ParsePath(r.front.received)) == Backend(r.addr))
      && (r.created ==> Handed(r.back) <= ModifyRequest(r.front.received, r.addr))
      && (r.attached && r.back.state == Connected ==>
            r.back.accepted + r.back.output == ModifyRequest(r.front.received, r.addr))
      && (r.created ==> Handed(r.front) <= r.back.received)
      && (r.created && r.front.state == Connected ==> r.front.accepted + r.front.output == r.back.received)
  {
    Reached(Http(routes), true, es);
  }

  /** Two clients that sent the same bytes, cut anyhow and interleaved anyhow with their backends,
      are routed to the same address once they are routed at all. Their backends never see different
      bytes, and the same bytes while both are open. */
  lemma SegmentationDoesNotMatter(routes: map<string, string>, es: seq<Event>, es': seq<Event>)
    requires var r, r' := After(Http(routes), true, es), After(Http(routes), true, es');
      r.front.received == r'.front.received && r.created && r'.created
    ensures var r, r' := After(Http(routes), true, es), After(Http(routes), true, es');
      && r.addr == r'.addr
      && (Handed(r.back) <= Handed(r'.back) || Handed(r'.back) <= Handed(r.back))
      && (r.attached && r.back.state == Connected && r'.attached && r'.back.state == Connected ==>
            Handed(r.back) == Handed(r'.back))
  {
    Reached(Http(routes), true, es);
    Reached(Http(routes), true, es');
  }

  /** Without a backend the proxy says nothing but one 404, and only for a path without a route. */
  lemma OneNotFound(routes: map<string, string>, es: seq<Event>)
    ensures var r := After(Http(routes), true, es);
      !r.created && Handed(r.front) != [] ==>
        Handed(r.front) == NOT_FOUND && Lookup(routes, ParsePath(r.front.received)) == NoRoute
  {
    Reached(Http(routes), true, es);
  }

  /** Between events, while both connections are open: a side that is paused has a peer with bytes
      to write and write interest on, so it will be resumed; and a side whose peer holds at least
      the mark is paused. The backend's half holds as well while the client is shutting down. */
  lemma BackpressureNeverStalls(kind: Kind, chosen: bool, es: seq<Event>)
    requires var r := After(kind, chosen, es);
      r.front.state != Disconnected && r.back.state == Connected
    ensures var r := After(kind, chosen, es);
      && (r.front.state == Connected ==>
            && (!r.front.reading ==> r.back.output != [] && r.back.writing)
            && (|r.back.output| >= MARK ==> !r.front.reading))
      && (!r.back.reading ==> r.front.output != [] && r.front.writing)
      && (|r.front.output| >= MARK ==> !r.back.reading)
  {
    Reached(kind, chosen, es);
  }

  lemma {:induction false} RunSnoc(kind: Kind, r: Relay, es: seq<Event>, e: Event)
    ensures Run(kind, r, es + [e]) == Step(kind, Run(kind, r, es), e)
    decreases |es|
  {
    if es == [] {
      assert [] + [e] == [e] && [e][1..] == [];
    } else {
      assert (es + [e])[1..] == es[1..] + [e];
      RunSnoc(kind, Step(kind, r, es[0]), es[1..], e);
    }
  }

  lemma RunCons(kind: Kind, r: Relay, e: Event, es: seq<Event>)
    ensures Run(kind, r, [e] + es) == Run(kind, Step(kind, r, e), es)
  {
    assert ([e] + es)[1..] == es;
  }
}
