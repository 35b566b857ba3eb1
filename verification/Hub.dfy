// The WebSocket hub: a locked map of clients, bounded channels, fan-out that drops instead of
// blocking, and close on unregister (internal/ws/hub.go, internal/ws/handler.go).
//
// The system below interleaves, one step at a time, any number of connections: registering and
// leaving under the write lock, the one subscriber goroutine sending to each client in any order
// under the read lock, and every writer goroutine draining its channel. Frames are named by the
// position of their broadcast in `log`.
module Hub {
  import opened Common
  import Schedule

  const BUFFER: nat := 256

  datatype Message = Message(tid: string, body: string)

  datatype Reader = Reading | Gone

  /** One client: its channel and what became of every frame offered to it. */
  datatype Conn = Conn(
    tid: string,
    reader: Reader,
    queue: seq<nat>,       // the send channel's buffer
    closed: bool,          // close(c.send) was called
    writing: bool,         // writePump has not returned
    written: seq<nat>,     // frames WriteMessage accepted
    broken: seq<nat>,      // the frame whose write failed, if any
    dropped: seq<nat>,     // frames that met a full buffer
    since: nat,            // broadcasts begun before registration
    until: Option<nat>)    // broadcasts begun before unregistration

  /** The subscriber goroutine inside Broadcast, holding the read lock. */
  datatype Sending = Sending(n: nat, pending: set<nat>)

  datatype System = System(
    members: map<string, set<nat>>,
    conns: map<nat, Conn>,
    log: seq<Message>,
    sending: Option<Sending>,
    panicked: bool)        // a send on a closed channel or a second close

  datatype Step =
    | Connect(c: nat, tid: string)
    | Leave(c: nat)
    | Begin(tid: string, body: string)
    | SendTo(c: nat)
    | End
    | Write(c: nat)
    | WriteFails(c: nat)
    | WriterEnds(c: nat)

  function MembersOf(s: System, tid: string): set<nat> {
    if tid in s.members then s.members[tid] else {}
  }

  // ---------- the critical sections and channel operations ----------

  function NewConn(tid: string, since: nat): Conn {
    Conn(tid, Reading, [], false, true, [], [], [], since, None)
  }

  function DoConnect(s: System, c: nat, tid: string): System {
    s.(members := s.members[tid := MembersOf(s, tid) + {c}], conns := s.conns[c := NewConn(tid, |s.log|)])
  }

  /** delete(h.clients[c.tid], c); close(c.send). */
  function DoLeave(s: System, c: nat): System
    requires c in s.conns
  {
    var k := s.conns[c];
    s.(members := if k.tid in s.members then s.members[k.tid := s.members[k.tid] - {c}] else s.members,
       conns := s.conns[c := k.(reader := Gone, closed := true, until := Some(|s.log|))],
       panicked := s.panicked || k.closed)
  }

  function DoBegin(s: System, tid: string, body: string): System {
    s.(log := s.log + [Message(tid, body)], sending := Some(Sending(|s.log|, MembersOf(s, tid))))
  }

  /** select { case c.send <- msg: default: }. */
  function Offer(k: Conn, n: nat): Conn {
    if |k.queue| < BUFFER then k.(queue := k.queue + [n]) else k.(dropped := k.dropped + [n])
  }

  function DoSendTo(s: System, c: nat): System
    requires s.sending.Some? && c in s.conns
  {
    var k, b := s.conns[c], s.sending.value;
    s.(conns := s.conns[c := Offer(k, b.n)], sending := Some(b.(pending := b.pending - {c})),
       panicked := s.panicked || k.closed)
  }

  predicate Enabled(s: System, st: Step) {
    match st
    case Connect(c, _) => c !in s.conns && s.sending.None?
    case Leave(c) => c in s.conns && s.conns[c].reader.Reading? && s.sending.None?
    case Begin(_, _) => s.sending.None?
    case SendTo(c) => s.sending.Some? && c in s.sending.value.pending && c in s.conns
    case End => s.sending.Some? && s.sending.value.pending == {}
    case Write(c) => c in s.conns && s.conns[c].writing && s.conns[c].queue != []
    case WriteFails(c) => c in s.conns && s.conns[c].writing && s.conns[c].queue != []
    case WriterEnds(c) => c in s.conns && s.conns[c].writing && s.conns[c].queue == [] && s.conns[c].closed
  }

  function Apply(s: System, st: Step): System
    requires Enabled(s, st)
  {
    match st
    case Connect(c, tid) => DoConnect(s, c, tid)
    case Leave(c) => DoLeave(s, c)
    case Begin(tid, body) => DoBegin(s, tid, body)
    case SendTo(c) => DoSendTo(s, c)
    case End => s.(sending := None)
    case Write(c) =>
      var k := s.conns[c];
      s.(conns := s.conns[c := k.(queue := k.queue[1..], written := k.written + [k.queue[0]])])
    case WriteFails(c) =>
      var k := s.conns[c];
      s.(conns := s.conns[c := k.(queue := k.queue[1..], broken := k.broken + [k.queue[0]], writing := false)])
    case WriterEnds(c) => s.(conns := s.conns[c := s.conns[c].(writing := false)])
  }

  function Do(s: System, st: Step): System {
    if Enabled(s, st) then Apply(s, st) else s
  }

  const Start := System(map[], map[], [], None, false)

  ghost predicate IsRun(ws: seq<System>, ss: seq<Step>) {
    && |ws| == |ss| + 1 && ws[0] == Start
    && forall i {:trigger ss[i]} | 0 <= i < |ss| :: Enabled(ws[i], ss[i]) && ws[i + 1] == Apply(ws[i], ss[i])
  }

  // ---------- invariant ----------

  /** Frames that got into the channel, oldest first. */
  function Accepted(k: Conn): seq<nat> {
    k.written + k.broken + k.queue
  }

  predicate Increasing(xs: seq<nat>) {
    forall i, j | 0 <= i < j < |xs| :: xs[i] < xs[j]
  }

  /** Broadcast n was made to c's tenant while c was registered, and c's turn has come. */
  predicate Addressed(s: System, c: nat, n: nat)
    requires c in s.conns
  {
    var k := s.conns[c];
    && k.since <= n < |s.log| && s.log[n].tid == k.tid
    && (k.until.Some? ==> n < k.until.value)
    && !(s.sending.Some? && s.sending.value.n == n && c in s.sending.value.pending)
  }

  ghost predicate ConnOk(s: System, c: nat)
    requires c in s.conns
  {
    var k := s.conns[c];
    && (k.closed <==> k.reader.Gone?) && (k.closed <==> k.until.Some?)
    && (k.reader.Reading? <==> c in MembersOf(s, k.tid))
    && k.since <= |s.log| && (k.until.Some? ==> k.until.value <= |s.log|)
    && |k.queue| <= BUFFER && |k.broken| <= 1 && (k.writing ==> k.broken == [])
    && Increasing(Accepted(k)) && Increasing(k.dropped)
    && (forall n :: n in k.dropped ==> n !in Accepted(k))
    && (forall n :: n in Accepted(k) || n in k.dropped <==> Addressed(s, c, n))
  }

  ghost predicate Inv(s: System) {
    && !s.panicked
    && (forall tid, c | tid in s.members && c in s.members[tid] :: c in s.conns && s.conns[c].tid == tid)
    && (forall c | c in s.conns :: ConnOk(s, c))
    && (s.sending.Some? ==>
          var b := s.sending.value;
          b.n == |s.log| - 1 && b.pending <= MembersOf(s, s.log[b.n].tid)
          && forall c | c in b.pending && c in s.conns :: s.conns[c].since <= b.n)
  }

  lemma IncreasingSnoc(xs: seq<nat>, n: nat)
    requires Increasing(xs) && forall m :: m in xs ==> m < n
    ensures Increasing(xs + [n])
  {
    forall i | 0 <= i < |xs| ensures xs[i] < n { assert xs[i] in xs; }
  }

  /** The numbers a channel operation moves around stay in order and none is lost or doubled. */
  lemma {:induction false} OfferOk(k: Conn, n: nat)
    requires Increasing(Accepted(k)) && Increasing(k.dropped)
    requires forall m :: m in Accepted(k) || m in k.dropped ==> m < n
    requires forall m :: m in k.dropped ==> m !in Accepted(k)
    ensures var k' := Offer(k, n);
      && Increasing(Accepted(k')) && Increasing(k'.dropped)
      && (forall m :: m in Accepted(k') || m in k'.dropped <==> m in Accepted(k) || m in k.dropped || m == n)
      && (forall m :: m in k'.dropped ==> m !in Accepted(k'))
  {
    var k' := Offer(k, n);
    if |k.queue| < BUFFER {
      assert Accepted(k') == Accepted(k) + [n];
      IncreasingSnoc(Accepted(k), n);
    } else {
      assert Accepted(k') == Accepted(k);
      IncreasingSnoc(k.dropped, n);
    }
  }

  lemma {:induction false} SendToKeepsInv(s: System, c: nat)
    requires Inv(s) && Enabled(s, SendTo(c))
    ensures Inv(DoSendTo(s, c))
  {
    var s' := DoSendTo(s, c);
    assert ConnOk(s, c);
    OfferedConnOk(s, c);
    forall d | d in s'.conns && d != c ensures ConnOk(s', d) { OtherConnOk(s, c, d); }
  }

  lemma {:induction false} OfferedConnOk(s: System, c: nat)
    requires Inv(s) && Enabled(s, SendTo(c)) && ConnOk(s, c)
    ensures ConnOk(DoSendTo(s, c), c)
  {
    var s', n := DoSendTo(s, c), s.sending.value.n;
    OfferOk(s.conns[c], n);
    forall m ensures Addressed(s', c, m) <==> Addressed(s, c, m) || m == n {}
  }

  lemma {:induction false} OtherConnOk(s: System, c: nat, d: nat)
    requires Inv(s) && Enabled(s, SendTo(c)) && d in s.conns && d != c
    ensures ConnOk(DoSendTo(s, c), d)
  {
    assert ConnOk(s, d);
    forall m ensures Addressed(DoSendTo(s, c), d, m) <==> Addressed(s, d, m) {}
  }

  lemma {:induction false} PopKeepsOrder(k: Conn)
    requires k.queue != []
    ensures k.broken == [] ==> k.written + [k.queue[0]] + k.broken + k.queue[1..] == Accepted(k)
    ensures k.written + (k.broken + [k.queue[0]]) + k.queue[1..] == Accepted(k)
  {
  }

  lemma {:induction false} WriterKeepsInv(s: System, c: nat, k': Conn)
    requires Inv(s) && c in s.conns
    requires var k := s.conns[c];
      Accepted(k') == Accepted(k) && k' == k.(queue := k'.queue, written := k'.written, broken := k'.broken, writing := k'.writing)
      && |k'.queue| <= BUFFER && |k'.broken| <= 1 && (k'.writing ==> k'.broken == [])
    ensures Inv(s.(conns := s.conns[c := k']))
  {
    var s' := s.(conns := s.conns[c := k']);
    forall d | d in s'.conns ensures ConnOk(s', d) {
      assert ConnOk(s, d);
      forall m ensures Addressed(s', d, m) <==> Addressed(s, d, m) {}
    }
  }

  lemma {:induction false} ConnectKeepsInv(s: System, c: nat, tid: string)
    requires Inv(s) && Enabled(s, Connect(c, tid))
    ensures Inv(DoConnect(s, c, tid))
  {
    var s' := DoConnect(s, c, tid);
    forall d | d in s'.conns ensures ConnOk(s', d) {
      if d in s.conns {
        assert ConnOk(s, d);
        forall m ensures Addressed(s', d, m) <==> Addressed(s, d, m) {}
      }
    }
  }

  lemma {:induction false} LeaveKeepsInv(s: System, c: nat)
    requires Inv(s) && Enabled(s, Leave(c))
    ensures Inv(DoLeave(s, c))
  {
    var s' := DoLeave(s, c);
    assert ConnOk(s, c);
    forall d | d in s'.conns ensures ConnOk(s', d) {
      assert ConnOk(s, d);
      forall m ensures Addressed(s', d, m) <==> Addressed(s, d, m) {}
      assert Accepted(s'.conns[d]) == Accepted(s.conns[d]);
    }
  }

  lemma {:induction false} BeginKeepsInv(s: System, tid: string, body: string)
    requires Inv(s) && Enabled(s, Begin(tid, body))
    ensures Inv(DoBegin(s, tid, body))
  {
    var s' := DoBegin(s, tid, body);
    forall d | d in s'.conns ensures ConnOk(s', d) {
      assert ConnOk(s, d);
      forall m ensures Addressed(s', d, m) <==> Addressed(s, d, m) {}
    }
    forall c | c in MembersOf(s, tid) && c in s.conns ensures s.conns[c].since <= |s.log| { assert ConnOk(s, c); }
  }

  lemma {:induction false} EndKeepsInv(s: System)
    requires Inv(s) && Enabled(s, End)
    ensures Inv(s.(sending := None))
  {
    var s' := s.(sending := None);
    forall d | d in s'.conns ensures ConnOk(s', d) {
      assert ConnOk(s, d);
      forall m ensures Addressed(s', d, m) <==> Addressed(s, d, m) {}
    }
  }

  lemma {:induction false} StepKeepsInv(s: System, st: Step)
    requires Inv(s) && Enabled(s, st)
    ensures Inv(Apply(s, st))
  {
    match st
    case Connect(c, tid) => ConnectKeepsInv(s, c, tid);
    case Leave(c) => LeaveKeepsInv(s, c);
    case Begin(tid, body) => BeginKeepsInv(s, tid, body);
    case SendTo(c) => SendToKeepsInv(s, c);
    case End => EndKeepsInv(s);
    case Write(c) =>
      assert ConnOk(s, c);
      PopKeepsOrder(s.conns[c]);
      WriterKeepsInv(s, c, Apply(s, st).conns[c]);
    case WriteFails(c) =>
      assert ConnOk(s, c);
      PopKeepsOrder(s.conns[c]);
      WriterKeepsInv(s, c, Apply(s, st).conns[c]);
    case WriterEnds(c) =>
      assert ConnOk(s, c);
      WriterKeepsInv(s, c, Apply(s, st).conns[c]);
  }

  // ---------- results over every interleaving ----------

  lemma {:induction false} RunKeepsInv(ws: seq<System>, ss: seq<Step>, i: nat)
    requires IsRun(ws, ss) && i < |ws|
    ensures Inv(ws[i])
  {
    if i > 0 {
      RunKeepsInv(ws, ss, i - 1);
      StepKeepsInv(ws[i - 1], ss[i - 1]);
    }
  }

  /** No frame is ever sent on a closed channel and no channel is closed twice. */
  lemma {:induction false} NeverPanics(ws: seq<System>, ss: seq<Step>, i: nat)
    requires IsRun(ws, ss) && i < |ws|
    ensures !ws[i].panicked
  {
    RunKeepsInv(ws, ss, i);
  }

  /** The broadcasts addressed to c so far. */
  function AddressedSet(s: System, c: nat): set<nat>
    requires c in s.conns
  {
    set n: nat | n < |s.log| && Addressed(s, c, n)
  }

  function Elements(xs: seq<nat>): set<nat> {
    set x | x in xs
  }

  lemma ElementsSnoc(xs: seq<nat>, x: nat)
    ensures Elements(xs + [x]) == Elements(xs) + {x}
  {
  }

  lemma {:induction false} DistinctCount(xs: seq<nat>)
    requires Increasing(xs)
    ensures |Elements(xs)| == |xs|
  {
    if xs != [] {
      var init, last := xs[..|xs| - 1], xs[|xs| - 1];
      DistinctCount(init);
      ElementsSnoc(init, last);
      assert xs == init + [last];
      assert last !in Elements(init);
    }
  }

  /**
   * At every instant, the frames written, the one whose write failed and the frames still queued
   * are, in this order and without duplicates, broadcasts addressed to the client; together with
   * the dropped ones they are all of them.
   */
  lemma {:induction false} FramesAccounted(ws: seq<System>, ss: seq<Step>, i: nat, c: nat)
    requires IsRun(ws, ss) && i < |ws| && c in ws[i].conns
    ensures Accounted(ws[i], c)
  {
    RunKeepsInv(ws, ss, i);
    CountsAdd(ws[i], c);
  }

  ghost predicate Accounted(s: System, c: nat)
    requires c in s.conns
  {
    var k := s.conns[c];
    && Increasing(Accepted(k)) && Increasing(k.dropped)
    && (forall n :: n in Accepted(k) || n in k.dropped <==> Addressed(s, c, n))
    && |k.written| + |k.broken| + |k.queue| + |k.dropped| == |AddressedSet(s, c)|
  }

  lemma {:induction false} CountsAdd(s: System, c: nat)
    requires Inv(s) && c in s.conns
    ensures Accounted(s, c)
  {
    var k := s.conns[c];
    assert ConnOk(s, c);
    DistinctCount(Accepted(k));
    DistinctCount(k.dropped);
    var a, d := Elements(Accepted(k)), Elements(k.dropped);
    assert a !! d && a + d == AddressedSet(s, c);
  }

  /** A client that lost no write and whose channel is drained got every addressed frame that found room. */
  lemma {:induction false} DrainedClientsGotEverything(ws: seq<System>, ss: seq<Step>, i: nat, c: nat, n: nat)
    requires IsRun(ws, ss) && i < |ws| && c in ws[i].conns
    requires ws[i].conns[c].queue == [] && ws[i].conns[c].broken == [] && Addressed(ws[i], c, n)
    ensures n in ws[i].conns[c].written <==> n !in ws[i].conns[c].dropped
  {
    FramesAccounted(ws, ss, i, c);
    RunKeepsInv(ws, ss, i);
    assert ConnOk(ws[i], c);
    assert Accepted(ws[i].conns[c]) == ws[i].conns[c].written;
  }

  lemma {:induction false} DropStep(s: System, st: Step, c: nat, n: nat)
    requires Inv(s) && Enabled(s, st) && c in Apply(s, st).conns && n in Apply(s, st).conns[c].dropped
    requires !(c in s.conns && n in s.conns[c].dropped)
    ensures st == SendTo(c) && c in s.conns && s.sending.Some? && s.sending.value.n == n
    ensures |s.conns[c].queue| == BUFFER
  {
    if c in s.conns { assert ConnOk(s, c); }
  }

  /** Every dropped frame met a full 256-slot buffer when its turn came. */
  lemma {:induction false} DropsMetFullBuffers(ws: seq<System>, ss: seq<Step>, i: nat, c: nat, n: nat) returns (j: nat)
    requires IsRun(ws, ss) && i < |ws| && c in ws[i].conns && n in ws[i].conns[c].dropped
    ensures j < i && ss[j] == SendTo(c) && c in ws[j].conns && ws[j].sending.Some? && ws[j].sending.value.n == n
    ensures |ws[j].conns[c].queue| == BUFFER
  {
    RunKeepsInv(ws, ss, i - 1);
    if c in ws[i - 1].conns && n in ws[i - 1].conns[c].dropped {
      j := DropsMetFullBuffers(ws, ss, i - 1, c, n);
    } else {
      j := i - 1;
      DropStep(ws[j], ss[j], c, n);
    }
  }

  /** Every send of the order is possible at its turn. */
  predicate Sendable(s: System, order: seq<nat>)
    decreases |order|
  {
    order == [] || (Enabled(s, SendTo(order[0])) && Sendable(DoSendTo(s, order[0]), order[1..]))
  }

  function AfterSends(s: System, order: seq<nat>): System
    requires Sendable(s, order)
    decreases |order|
  {
    if order == [] then s else AfterSends(DoSendTo(s, order[0]), order[1..])
  }

  /** Every pending client is offered the frame, once and at one stroke. */
  function Offered(s: System): System
    requires s.sending.Some?
  {
    var b := s.sending.value;
    s.(conns := map c | c in s.conns :: if c in b.pending then Offer(s.conns[c], b.n) else s.conns[c],
       sending := Some(b.(pending := {})))
  }

  /** Go ranges over the client set in any order: it goes through, and ends as if all were served at one stroke. */
  lemma {:induction false} FanOutIsOneStroke(s: System, order: seq<nat>)
    requires Inv(s) && s.sending.Some? && (forall c :: c in order <==> c in s.sending.value.pending)
    requires forall i, j | 0 <= i < j < |order| :: order[i] != order[j]
    ensures Sendable(s, order) && AfterSends(s, order) == Offered(s)
    decreases |order|
  {
    if order == [] {
      NobodyPending(s);
    } else {
      assert order[0] in order;
      OneSend(s, order[0]);
      RestIsPending(s, order);
      FanOutIsOneStroke(DoSendTo(s, order[0]), order[1..]);
    }
  }

  lemma NobodyPending(s: System)
    requires s.sending.Some? && forall c :: c !in s.sending.value.pending
    ensures Offered(s) == s
  {
    assert s.sending.value.pending == {};
    assert Offered(s).conns == s.conns;
  }

  /** One send brings the loop one client nearer to its end. */
  lemma {:induction false} OneSend(s: System, c: nat)
    requires Inv(s) && s.sending.Some? && c in s.sending.value.pending
    ensures Enabled(s, SendTo(c)) && Inv(DoSendTo(s, c)) && DoSendTo(s, c).sending.Some?
    ensures Offered(DoSendTo(s, c)) == Offered(s)
  {
    assert c in MembersOf(s, s.log[s.sending.value.n].tid);
    SendToKeepsInv(s, c);
    SameOffered(s, c);
  }

  lemma SameOffered(s: System, c: nat)
    requires s.sending.Some? && c in s.sending.value.pending && c in s.conns && !s.panicked && !DoSendTo(s, c).panicked
    ensures Offered(DoSendTo(s, c)) == Offered(s)
  {
    assert Offered(DoSendTo(s, c)).conns == Offered(s).conns;
  }

  lemma RestIsPending(s: System, order: seq<nat>)
    requires s.sending.Some? && order != [] && order[0] in s.conns
    requires forall c :: c in order <==> c in s.sending.value.pending
    requires forall i, j | 0 <= i < j < |order| :: order[i] != order[j]
    ensures forall c :: c in order[1..] <==> c in DoSendTo(s, order[0]).sending.value.pending
  {
    assert order == [order[0]] + order[1..];
    forall c | c in order[1..] ensures c != order[0] {
      var i :| 0 <= i < |order[1..]| && order[1..][i] == c;
      assert order[i + 1] == c;
    }
  }

  function Bodies(log: seq<Message>, frames: seq<nat>): seq<string>
    requires forall i | 0 <= i < |frames| :: frames[i] < |log|
  {
    seq(|frames|, i requires 0 <= i < |frames| => log[frames[i]].body)
  }

  /** Offering a frame to a connection is what sending its body does to the channel of a client object. */
  lemma OfferIsPush(log: seq<Message>, k: Conn, n: nat)
    requires n < |log| && forall i | 0 <= i < |k.queue| :: k.queue[i] < |log|
    ensures forall i | 0 <= i < |Offer(k, n).queue| :: Offer(k, n).queue[i] < |log|
    ensures Bodies(log, Offer(k, n).queue) == Pushed(Bodies(log, k.queue), log[n].body)
  {
  }

  function Pushed(queue: seq<string>, body: string): seq<string> {
    if |queue| < BUFFER then queue + [body] else queue
  }

  // ---------- paths ----------

  ghost predicate Path(ss: seq<Step>, s: System) {
    Schedule.Leads(Enabled, Do, Start, ss, s)
  }

  lemma {:induction false} PathKeepsInv(ss: seq<Step>, s: System)
    requires Path(ss, s)
    ensures Inv(s)
  {
    if ss != [] {
      var front := ss[..|ss| - 1];
      PathKeepsInv(front, Schedule.Played(Do, Start, front));
      StepKeepsInv(Schedule.Played(Do, Start, front), ss[|ss| - 1]);
    }
  }

  /** So whatever was done to a hub object, no client panics it and every client's frames are accounted for. */
  lemma {:induction false} PathAccounted(ss: seq<Step>, s: System, c: nat)
    requires Path(ss, s)
    ensures !s.panicked && (c in s.conns ==> Accounted(s, c))
  {
    PathKeepsInv(ss, s);
    if c in s.conns { CountsAdd(s, c); }
  }

  /** On any path, the members of a tenant are the open connections filed under it. */
  lemma {:induction false} MembersAreOpen(ss: seq<Step>, s: System, n: nat)
    requires Path(ss, s)
    ensures n in s.conns ==> (s.conns[n].closed <==> s.conns[n].reader.Gone?) && (!s.conns[n].closed <==> n in MembersOf(s, s.conns[n].tid))
    ensures forall tid | n in MembersOf(s, tid) :: n in s.conns && s.conns[n].tid == tid
  {
    PathKeepsInv(ss, s);
    if n in s.conns { assert ConnOk(s, n); }
  }
}
