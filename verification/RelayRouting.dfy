/** Whether and where a client gets a backend: the routing table and the address check of the HTTP proxy,
    what its first phase decides on the bytes that have arrived, and the one dial of the balancer. */
module RelayRoutings {
  import opened Wrappers
  import opened Connections
  import opened HttpText
  import opened Relays
  import opened RelayEndings

  type Event = Relays.Event

  // ---- Numbers as std::stoi reads them ----

  predicate IsDigit(c: char) {
    '0' <= c <= '9'
  }

  /** What isspace accepts. */
  predicate IsBlank(c: char) {
    c == ' ' || c == '\t' || c == '\n' || c == '\r' || c == '\U{000B}' || c == '\U{000C}'
  }

  /** A number without leading zeros. */
  function Written(n: nat): string {
    if n < 10 then [n as char + '0'] else Written(n / 10) + [(n % 10) as char + '0']
  }

  function Zeros(k: nat): string {
    if k == 0 then "" else "0" + Zeros(k - 1)
  }

  /** `s` is blanks, a sign or none, a number with any leading zeros, and a rest that does not go on with it. */
  ghost predicate ReadsAs(s: string, blanks: string, sign: string, k: nat, n: nat, rest: string) {
    && s == blanks + (sign + (Zeros(k) + Written(n) + rest))
    && (forall c :: c in blanks ==> IsBlank(c))
    && sign in ["", "+", "-"]
    && (rest != "" ==> !IsDigit(rest[0]))
  }

  lemma {:induction false} DecimalOfWritten(k: nat, n: nat)
    ensures Decimal(Zeros(k) + Written(n)) == n
    decreases n, k
  {
    var s := Zeros(k) + Written(n);
    if n < 10 {
      assert s[..|s| - 1] == Zeros(k);
      DecimalOfZeros(k);
    } else {
      assert s[..|s| - 1] == Zeros(k) + Written(n / 10);
      DecimalOfWritten(k, n / 10);
    }
  }

  lemma {:induction false} DecimalOfZeros(k: nat)
    ensures Decimal(Zeros(k)) == 0
  {
    if k > 0 {
      ZerosEnd(k);
      DecimalOfZeros(k - 1);
    }
  }

  lemma {:induction false} ZerosEnd(k: nat)
    requires k > 0
    ensures Zeros(k) == Zeros(k - 1) + "0"
  {
    if k > 1 {
      ZerosEnd(k - 1);
    }
  }

  lemma {:induction false} AllDigits(k: nat, n: nat)
    ensures Written(n) != "" && forall c :: c in Zeros(k) + Written(n) ==> IsDigit(c)
    decreases n, k
  {
    if k > 0 {
      AllDigits(k - 1, n);
    } else if n >= 10 {
      AllDigits(0, n / 10);
    }
  }

  /** Every string of digits is such a number. */
  lemma {:induction false} DigitsAreANumber(s: string) returns (k: nat, n: nat)
    requires s != "" && forall c :: c in s ==> IsDigit(c)
    ensures s == Zeros(k) + Written(n)
    decreases |s|
  {
    var front, last := s[..|s| - 1], s[|s| - 1];
    assert s == front + [last] && last in s && forall c :: c in front ==> c in s;
    var d: nat := last as int - '0' as int;
    assert Written(d) == [last];
    if front == "" {
      k, n := 0, d;
    } else {
      k, n := DigitsAreANumber(front);
      if n == 0 {
        ZerosEnd(k + 1);
        k, n := k + 1, d;
      } else {
        n := 10 * n + d;
      }
    }
  }

  lemma {:induction false} SkipsBlanks(blanks: string, s: string)
    requires forall c :: c in blanks ==> IsBlank(c)
    requires s != "" ==> !IsBlank(s[0])
    ensures SkipSpaces(blanks + s) == s
    decreases |blanks|
  {
    if blanks == "" {
      assert blanks + s == s;
    } else {
      assert (blanks + s)[1..] == blanks[1..] + s && blanks[0] in blanks;
      SkipsBlanks(blanks[1..], s);
    }
  }

  lemma {:induction false} CutsBlanks(s: string) returns (blanks: string)
    ensures s == blanks + SkipSpaces(s)
    ensures forall c :: c in blanks ==> IsBlank(c)
  {
    if s != "" && IsBlank(s[0]) {
      var rest := CutsBlanks(s[1..]);
      blanks := [s[0]] + rest;
    } else {
      blanks := "";
    }
  }

  lemma {:induction false} TakesDigits(digits: string, rest: string)
    requires forall c :: c in digits ==> IsDigit(c)
    requires rest != "" ==> !IsDigit(rest[0])
    ensures LeadingDigits(digits + rest) == digits
    decreases |digits|
  {
    if digits == "" {
      assert digits + rest == rest;
    } else {
      assert (digits + rest)[1..] == digits[1..] + rest && digits[0] in digits;
      TakesDigits(digits[1..], rest);
    }
  }

  lemma {:induction false} CutsDigits(s: string) returns (rest: string)
    ensures s == LeadingDigits(s) + rest && (rest != "" ==> !IsDigit(rest[0]))
    ensures forall c :: c in LeadingDigits(s) ==> IsDigit(c)
  {
    if s != "" && IsDigit(s[0]) {
      rest := CutsDigits(s[1..]);
    } else {
      rest := s;
    }
  }

  lemma ReadsAccepts(s: string, blanks: string, sign: string, k: nat, n: nat, rest: string)
    requires ReadsAs(s, blanks, sign, k, n, rest)
    ensures StoiAccepts(s) <==> n <= (if sign == "-" then 0x8000_0000 else 0x7FFF_FFFF)
  {
    var digits := Zeros(k) + Written(n);
    var tail := sign + (digits + rest);
    AllDigits(k, n);
    assert digits != "" && digits[0] in digits;
    SkipsBlanks(blanks, tail);
    assert tail == if sign == "" then digits + rest else [sign[0]] + (digits + rest);
    assert sign != "" ==> tail[1..] == digits + rest;
    TakesDigits(digits, rest);
    DecimalOfWritten(k, n);
  }

  /** The port check is that of a 32-bit int: blanks, a sign, and a number in range, with anything behind. */
  lemma StoiAcceptsExactly(s: string)
    ensures StoiAccepts(s)
       <==> exists blanks, sign, k, n, rest ::
              ReadsAs(s, blanks, sign, k, n, rest) && n <= (if sign == "-" then 0x8000_0000 else 0x7FFF_FFFF)
  {
    if StoiAccepts(s) {
      var blanks := CutsBlanks(s);
      var t := SkipSpaces(s);
      var sign := if t != "" && t[0] in "+-" then [t[0]] else "";
      var u := if sign != "" then t[1..] else t;
      assert t == sign + u;
      var rest := CutsDigits(u);
      var k, n := DigitsAreANumber(LeadingDigits(u));
      assert ReadsAs(s, blanks, sign, k, n, rest);
      ReadsAccepts(s, blanks, sign, k, n, rest);
    }
    forall blanks, sign, k, n, rest | ReadsAs(s, blanks, sign, k, n, rest)
      ensures StoiAccepts(s) <==> n <= (if sign == "-" then 0x8000_0000 else 0x7FFF_FFFF)
    {
      ReadsAccepts(s, blanks, sign, k, n, rest);
    }
  }

  // ---- The routing table ----

  lemma ColonAt(s: string, i: nat)
    ensures At(s, ":", i) <==> i < |s| && s[i] == ':'
  {
    if i < |s| {
      assert s[i..i + 1] == [s[i]];
    }
  }

  /** An address is usable if its port, which is what follows the first colon, is a number. */
  lemma UsableAddress(host: string, port: string)
    requires ':' !in host
    ensures CheckAddress(host + ":" + port) == if StoiAccepts(port) then Backend(host + ":" + port) else BadAddress
    ensures CheckAddress(host) == BadAddress
  {
    var addr := host + ":" + port;
    forall i: nat
      ensures At(addr, ":", i) <==> i < |addr| && addr[i] == ':'
      ensures At(host, ":", i) <==> i < |host| && host[i] == ':'
    {
      ColonAt(addr, i);
      ColonAt(host, i);
    }
    forall i | 0 <= i < |host|
      ensures addr[i] == host[i] && host[i] in host
    {
    }
    FoundAt(addr, ":", 0, |host|);
    assert addr[|host| + 1..] == port;
    FoundNowhere(host, ":", 0);
  }

  /** The exact path comes first, then "/", then 404. */
  lemma RouteOrder(routes: map<string, string>, path: string, addr: string)
    ensures Lookup(routes[path := addr], path) == CheckAddress(addr)
    ensures path !in routes ==> Lookup(routes["/" := addr], path) == CheckAddress(addr)
    ensures Lookup(routes, path) == NoRoute <==> path !in routes && "/" !in routes
  {}

  // ---- The first phase of the HTTP proxy ----

  /** Both names that onMessage waits for have arrived. */
  predicate Parsed(s: Bytes) {
    ParseHeader(s, "Host") != "" && ParsePath(s) != ""
  }

  predicate Dialable(routes: map<string, string>, s: Bytes) {
    Parsed(s) && Lookup(routes, ParsePath(s)).Backend?
  }

  predicate Unroutable(routes: map<string, string>, s: Bytes) {
    Parsed(s) && Lookup(routes, ParsePath(s)) == NoRoute
  }

  /** A client without a backend that has sent `s`, one that has just been given a backend, and one that
      was told 404. */
  ghost predicate Waits(r: Relay, s: Bytes) {
    !r.created && !r.attached && r.waiting && r.front.received == s && r.front.input == s
  }

  ghost predicate Dials(routes: map<string, string>, r: Relay, s: Bytes) {
    && r.created && r.attached && !r.waiting && r.front.received == s && r.front.input == s
    && r.back == ConnectEstablishedAsClient(New(MARK)) && Lookup(routes, ParsePath(s)) == Backend(r.addr)
  }

  /** What one read does to a client that still waits, whatever came before: it gets a backend exactly when
      what has arrived routes to a usable address and the dial succeeds; it gets the 404, and is shut down,
      exactly when there is no route; otherwise it goes on waiting. */
  lemma FirstPhase(routes: map<string, string>, r: Relay, data: Bytes, dials: bool, w: WriteResult)
    requires Inv(Http(routes), r) && r.waiting
    ensures var s := r.front.received + data;
      var r' := Relays.Step(Http(routes), r, FrontReadable(Got(data), dials, w));
      && (Dialable(routes, s) && dials ==> Dials(routes, r', s) && r'.front == Receive(r.front, data))
      && (!(Dialable(routes, s) && dials) ==> Waits(r', s))
      && (!(Dialable(routes, s) && dials) && !Unroutable(routes, s) ==> r'.front == Receive(r.front, data))
      && (Unroutable(routes, s) && r.front.state == Connected && w != WriteFault ==> Told404(r'))
  {
    var r1 := r.(front := Receive(r.front, data));
    assert r1.front.input == r.front.received + data == r1.front.received;
    if Unroutable(routes, r1.front.received) {
      NotFoundSent(routes, r1, w);
    }
  }

  ghost predicate Told404(r: Relay) {
    Handed(r.front) == NOT_FOUND && r.front.state == Disconnecting
  }

  lemma NotFoundSent(routes: map<string, string>, r: Relay, w: WriteResult)
    requires Sound(r.front) && r.waiting && !r.created && !r.attached && r.front.input == r.front.received
    requires Unroutable(routes, r.front.received)
    ensures var r' := OnMessage(Http(routes), r, false, w);
      && Waits(r', r.front.received)
      && (r.front.state == Connected && Handed(r.front) == [] && w != WriteFault ==> Told404(r'))
    ensures OnMessage(Http(routes), r, true, w) == OnMessage(Http(routes), r, false, w)
  {
    forall dials
      ensures OnMessage(Http(routes), r, dials, w) == Refuse(Http(routes), r, w)
    {
    }
    Refused(Http(routes), r, w);
  }

  /** The last lines of the branch without a route. */
  function Refuse(kind: Kind, r: Relay, w: WriteResult): Relay {
    var r' := Then(kind, r, Front, Send(r.front, NOT_FOUND, w));
    r'.(front := Shutdown(r'.front))
  }

  lemma Refused(kind: Kind, r: Relay, w: WriteResult)
    requires Sound(r.front) && r.waiting && !r.created && !r.attached && r.front.input == r.front.received
    ensures Waits(Refuse(kind, r, w), r.front.received)
    ensures r.front.state == Connected && Handed(r.front) == [] && w != WriteFault ==> Told404(Refuse(kind, r, w))
  {
    var o := Send(r.front, NOT_FOUND, w);
    SendIsFair(r.front, NOT_FOUND, w);
    SendExactly(r.front, NOT_FOUND, w);
    UnattachedReports(kind, r.(front := o.0), o.1);
    assert [] + NOT_FOUND == NOT_FOUND;
  }

  /** The client's callbacks have nobody to tell. */
  lemma {:induction false} UnattachedReports(kind: Kind, r: Relay, cbs: seq<Callback>)
    requires !r.attached
    ensures Reports(kind, r, Front, cbs) == r
    decreases |cbs|
  {
    if cbs != [] {
      UnattachedReports(kind, r, cbs[1..]);
    }
  }

  /** What the first phase has decided of a client without a backend that has not faulted. */
  ghost predicate Decided(routes: map<string, string>, r: Relay) {
    !r.created ==>
      && !Dialable(routes, r.front.received)
      && if Unroutable(routes, r.front.received) then Told404(r)
         else Handed(r.front) == [] && r.front.state == Connected
  }

  lemma ParsedStays(routes: map<string, string>, s: Bytes, data: Bytes)
    ensures Dialable(routes, s) ==> Dialable(routes, s + data)
    ensures Unroutable(routes, s) ==> Unroutable(routes, s + data)
  {
    if Parsed(s) {
      HeaderStable(s, data, "Host");
      PathStable(s, data);
    }
  }

  lemma ReadDecides(routes: map<string, string>, r: Relay, data: Bytes, w: WriteResult)
    requires Inv(Http(routes), r) && !r.created && Decided(routes, r) && w != WriteFault
    ensures Decided(routes, Relays.Step(Http(routes), r, FrontReadable(Got(data), true, w)))
  {
    FirstPhase(routes, r, data, true, w);
    ParsedStays(routes, r.front.received, data);
    if Unroutable(routes, r.front.received) {
      StaysClosed(Http(routes), r, FrontReadable(Got(data), true, w));
      StepSpares(Http(routes), r, FrontReadable(Got(data), true, w));
    }
  }

  lemma StepDecides(routes: map<string, string>, r: Relay, e: Event)
    requires Inv(Http(routes), r) && Decided(routes, r) && !Faults(r, e)
    requires e.FrontReadable? ==> e.dials
    ensures Decided(routes, Relays.Step(Http(routes), r, e))
  {
    var kind := Http(routes);
    if r.created {
      StepSpares(kind, r, e);
    } else if e.FrontReadable? && e.fr.Got? {
      ReadDecides(routes, r, e.fr.data, e.fw);
    } else if e.FrontWritable? {
      FlushFront(kind, r, e.fws);
      StepSpares(kind, r, e);
    }
  }

  lemma {:induction false} RunDecides(routes: map<string, string>, r: Relay, es: seq<Event>)
    requires Inv(Http(routes), r) && Decided(routes, r) && !EverFaults(Http(routes), r, es)
    requires forall e :: e in es && e.FrontReadable? ==> e.dials
    ensures Decided(routes, Relays.Run(Http(routes), r, es))
    decreases |es|
  {
    if es != [] {
      assert es[0] in es && forall e :: e in es[1..] ==> e in es;
      StepDecides(routes, r, es[0]);
      StepKeepsInv(Http(routes), r, es[0]);
      RunDecides(routes, Relays.Step(Http(routes), r, es[0]), es[1..]);
    }
  }

  /** However the stream is cut: as long as no dial fails and the client connection does not fault, the client
      has a backend exactly when what it has sent has a Host and a path with a usable route; it has been told
      404, and shut down, exactly when they have no route; and until then it is open and has been told
      nothing. */
  lemma StreamDecides(routes: map<string, string>, es: seq<Event>)
    requires !EverFaults(Http(routes), Start(Http(routes), true), es)
    requires forall e :: e in es && e.FrontReadable? ==> e.dials
    ensures var r := After(Http(routes), true, es);
      && (r.created <==> Dialable(routes, r.front.received))
      && (Unroutable(routes, r.front.received) ==> Told404(r))
      && (!r.created && !Unroutable(routes, r.front.received) ==> Handed(r.front) == [] && r.front.state == Connected)
  {
    Reached(Http(routes), true, []);
    Reached(Http(routes), true, es);
    RunDecides(routes, Start(Http(routes), true), es);
  }

  // ---- When the backend answers ----

  /** The connect completes: what the client sent early is handed over at once and ends the backend only if
      the kernel fails that write; when there is none, nothing is written and only the backend changes. */
  lemma BackendConnects(kind: Kind, chosen: bool, es: seq<Event>, w: WriteResult, ws: seq<WriteResult>)
    requires var r := After(kind, chosen, es); r.attached && r.back.state == Connecting
    ensures var r := After(kind, chosen, es);
      var r' := Relays.Step(kind, r, BackWritable([w] + ws));
      && (r.front.received == [] ==>
            && r'.front == r.front
            && r'.back == r.back.(state := Connected, writing := false, reading := true))
      && (r.front.received != [] ==>
            && (r'.back.state == Disconnected <==> w == WriteFault)
            && (w != WriteFault ==> Handed(r'.back) == Target(kind, r) && r'.back.state == Connected)
            && r'.front.input == [])
  {
    var r := After(kind, chosen, es);
    Reached(kind, chosen, es);
    if r.front.received != [] {
      EarlyBytesGo(kind, r, w);
    }
  }

  lemma EarlyBytesGo(kind: Kind, r: Relay, w: WriteResult)
    requires Inv(kind, r) && r.attached && r.back.state == Connecting && r.front.input != []
    ensures var r' := BackendUp(kind, r.(back := ConnectCompleted(r.back)), w);
      && (r'.back.state == Disconnected <==> w == WriteFault)
      && (w != WriteFault ==> Handed(r'.back) == Target(kind, r) && r'.back.state == Connected)
      && r'.front.input == []
  {
    var r1 := r.(back := ConnectCompleted(r.back));
    var r2 := if kind == L4 then r1.(backendConnected := true) else r1;
    var data := if kind == L4 then r2.front.input else ModifyRequest(r2.front.input, r2.addr);
    SendExactly(r2.back, data, w);
    BackReportsKeep(kind, r2.(front := Consume(r2.front), back := Send(r2.back, data, w).0), Send(r2.back, data, w).1);
    SendBack(kind, r2.(front := Consume(r2.front)), data, w);
  }

  // ---- The one dial of the balancer ----

  /** How the first dial of a run went. */
  function FirstDial(es: seq<Event>): Option<bool> {
    if es == [] then None else if es[0].Dial? then Some(es[0].succeeds) else FirstDial(es[1..])
  }

  lemma OnlyDialsDial(r: Relay, e: Event)
    requires Inv(L4, r) && !e.Dial?
    ensures var r' := Relays.Step(L4, r, e);
      r'.created == r.created && r'.dialing == r.dialing && (Shut(r.front) ==> Shut(r'.front))
  {
    if Shut(r.front) {
      StaysClosed(L4, r, e);
    }
    KeepsDialing(r, e);
  }

  lemma {:induction false} ReportsKeepDialing(r: Relay, side: Side, cbs: seq<Callback>)
    ensures var r' := Reports(L4, r, side, cbs);
      r'.created == r.created && r'.dialing == r.dialing
    decreases |cbs|
  {
    if cbs != [] {
      ReportsKeepDialing(Report(L4, r, side, cbs[0]), side, cbs[1..]);
    }
  }

  lemma ThenKeepsDialing(r: Relay, side: Side, o: Outcome)
    ensures var r' := Then(L4, r, side, o);
      r'.created == r.created && r'.dialing == r.dialing
  {
    ReportsKeepDialing(SetSide(r, side, o.0), side, o.1);
  }

  lemma ForwardKeepsDialing(r: Relay, data: Bytes, w: WriteResult)
    ensures var r' := Forward(L4, r, data, w);
      r'.created == r.created && r'.dialing == r.dialing
  {
    ThenKeepsDialing(r.(front := Consume(r.front)), Back, Send(r.back, data, w));
  }

  lemma KeepsDialing(r: Relay, e: Event)
    requires !e.Dial?
    ensures var r' := Relays.Step(L4, r, e);
      r'.created == r.created && r'.dialing == r.dialing
  {
    match e
    case Timeout =>
    case FrontReadable(fr, _, w) =>
      if fr.Got? {
        var r1 := r.(front := Receive(r.front, fr.data));
        ForwardKeepsDialing(r1, r1.front.input, w);
      }
      ThenKeepsDialing(r, Front, Close(r.front));
    case FrontWritable(ws) => ThenKeepsDialing(r, Front, Flush(r.front, ws));
    case FrontError => ThenKeepsDialing(r, Front, Close(r.front));
    case BackReadable(_, _) => BackKeepsDialing(r, e);
    case BackWritable(_) => BackKeepsDialing(r, e);
    case BackError => BackKeepsDialing(r, e);
  }

  lemma BackKeepsDialing(r: Relay, e: Event)
    requires e.BackReadable? || e.BackWritable? || e.BackError?
    ensures var r' := Relays.Step(L4, r, e);
      r'.created == r.created && r'.dialing == r.dialing
  {
    ThenKeepsDialing(r, Back, Close(r.back));
    if e.BackReadable? && e.br.Got? {
      var r1 := r.(back := Receive(r.back, e.br.data));
      ThenKeepsDialing(r1.(back := Consume(r1.back)), Front, Send(r1.front, r1.back.input, e.bw));
    } else if e.BackWritable? {
      ThenKeepsDialing(r, Back, Flush(r.back, e.bws));
      var r1 := r.(back := ConnectCompleted(r.back), backendConnected := true);
      ForwardKeepsDialing(r1, r1.front.input, if e.bws == [] then WouldBlock else e.bws[0]);
    }
  }

  lemma {:induction false} RunDials(r: Relay, es: seq<Event>)
    requires Inv(L4, r)
    ensures var r' := Relays.Run(L4, r, es);
      && (r'.created <==> r.created || (r.dialing && FirstDial(es) == Some(true)))
      && (r'.dialing <==> r.dialing && FirstDial(es) == None)
      && (Shut(r.front) || (r.dialing && FirstDial(es) == Some(false)) ==> Shut(r'.front))
    decreases |es|
  {
    if es != [] {
      var r1 := Relays.Step(L4, r, es[0]);
      StepKeepsInv(L4, r, es[0]);
      if !es[0].Dial? {
        OnlyDialsDial(r, es[0]);
      }
      RunDials(r1, es[1..]);
    }
  }

  /** The balancer dials once at most: the client gets a backend exactly when one was chosen for it and the
      posted dial has run and succeeded; without a healthy backend, or when the dial failed, the client is shut
      down, for ever, and gets none. */
  lemma BalancerDialsOnce(chosen: bool, es: seq<Event>)
    ensures var r := After(L4, chosen, es);
      && (r.created <==> chosen && FirstDial(es) == Some(true))
      && (r.dialing <==> chosen && FirstDial(es) == None)
      && (!chosen || FirstDial(es) == Some(false) ==> Shut(r.front) && !r.created)
  {
    Reached(L4, chosen, []);
    RunDials(Start(L4, chosen), es);
  }
}
