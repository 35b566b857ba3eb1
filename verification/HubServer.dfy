// The hub and client objects (internal/ws/hub.go). Whatever is done to them is a path of the system in module Hub.
module HubServer {
  import opened Common
  import opened Hub
  import Schedule

  /** The Go client: its tenant, its channel, and whether its writePump runs. */
  class Client {
    const tid: string
    var queue: seq<string>
    var closed: bool
    var writing: bool

    constructor (tid: string)
      ensures this.tid == tid && queue == [] && !closed && writing
    {
      this.tid := tid;
      queue, closed, writing := [], false, true;
    }

    /** A non-blocking send; Go panics when the channel is closed. */
    method TrySend(body: string)
      requires !closed
      modifies `queue
      ensures queue == Pushed(old(queue), body)
    {
      if |queue| < BUFFER { queue := queue + [body]; }
    }

    /** Go panics when the channel is closed already. */
    method Close()
      requires !closed
      modifies `closed
      ensures closed
    {
      closed := true;
    }
  }

  // ---------- the objects as a picture of the system ----------

  /** The client object is connection n of the system, body for body. */
  ghost predicate Mirror(s: System, n: nat, c: Client)
    reads c
  {
    Shows(s, n, c.tid, c.queue, c.closed, c.writing)
  }

  ghost predicate Shows(s: System, n: nat, tid: string, queue: seq<string>, closed: bool, writing: bool) {
    n in s.conns &&
    var k := s.conns[n];
    && k.tid == tid && k.closed == closed && k.writing == writing
    && (forall i | 0 <= i < |k.queue| :: k.queue[i] < |s.log|) && Bodies(s.log, k.queue) == queue
  }

  ghost predicate SameConn(s: System, t: System, n: nat) {
    n in s.conns && n in t.conns && s.log <= t.log
    && t.conns[n].tid == s.conns[n].tid && t.conns[n].closed == s.conns[n].closed
    && t.conns[n].writing == s.conns[n].writing && t.conns[n].queue == s.conns[n].queue
  }

  lemma MirrorStays(s: System, t: System, n: nat, c: Client)
    requires Mirror(s, n, c) && SameConn(s, t, n)
    ensures Mirror(t, n, c)
  {
    assert Bodies(t.log, t.conns[n].queue) == Bodies(s.log, s.conns[n].queue);
  }

  ghost predicate Injective(ids: map<Client, nat>) {
    forall c, d | c in ids && d in ids && ids[c] == ids[d] :: c == d
  }

  ghost function Numbers(ids: map<Client, nat>, cs: set<Client>): set<nat>
    requires cs <= ids.Keys
  {
    set c | c in cs :: ids[c]
  }

  ghost function Of(clients: map<string, set<Client>>, tid: string): set<Client> {
    if tid in clients then clients[tid] else {}
  }

  ghost predicate FiledAt(clients: map<string, set<Client>>, ids: map<Client, nat>, s: System, tid: string) {
    && Of(clients, tid) <= ids.Keys && (forall c | c in Of(clients, tid) :: c.tid == tid)
    && MembersOf(s, tid) == Numbers(ids, Of(clients, tid))
  }

  /** What the hub files under each tenant are the clients whose connections are its members. */
  ghost predicate Filed(clients: map<string, set<Client>>, ids: map<Client, nat>, s: System) {
    forall tid :: FiledAt(clients, ids, s, tid)
  }

  lemma FiledWithOneMore(clients: map<string, set<Client>>, ids: map<Client, nat>, s: System, c: Client, n: nat)
    requires Filed(clients, ids, s) && c !in ids
    ensures Filed(clients[c.tid := Of(clients, c.tid) + {c}], ids[c := n], DoConnect(s, n, c.tid))
  {
    var clients', ids', s' := clients[c.tid := Of(clients, c.tid) + {c}], ids[c := n], DoConnect(s, n, c.tid);
    forall tid ensures FiledAt(clients', ids', s', tid) {
      assert FiledAt(clients, ids, s, tid);
      var cs := Of(clients, tid);
      assert Numbers(ids', cs) == Numbers(ids, cs);
      if tid == c.tid { assert Numbers(ids', cs + {c}) == Numbers(ids', cs) + {n}; }
    }
  }

  lemma FiledWithOneLess(clients: map<string, set<Client>>, ids: map<Client, nat>, s: System, c: Client)
    requires Filed(clients, ids, s) && Injective(ids) && c in ids && ids[c] in s.conns && s.conns[ids[c]].tid == c.tid
    ensures Filed(if c.tid in clients then clients[c.tid := clients[c.tid] - {c}] else clients, ids, DoLeave(s, ids[c]))
  {
    var clients' := if c.tid in clients then clients[c.tid := clients[c.tid] - {c}] else clients;
    forall tid ensures FiledAt(clients', ids, DoLeave(s, ids[c]), tid) {
      assert FiledAt(clients, ids, s, tid);
      var cs := Of(clients, tid);
      if tid == c.tid { assert Numbers(ids, cs - {c}) == Numbers(ids, cs) - {ids[c]}; }
    }
  }

  lemma FiledAsBefore(clients: map<string, set<Client>>, ids: map<Client, nat>, s: System, t: System)
    requires Filed(clients, ids, s) && t.members == s.members
    ensures Filed(clients, ids, t)
  {
    forall tid ensures FiledAt(clients, ids, t, tid) { assert FiledAt(clients, ids, s, tid); }
  }

  lemma MirrorsStay(s: System, t: System, ids: map<Client, nat>)
    requires forall c | c in ids :: Mirror(s, ids[c], c) && SameConn(s, t, ids[c])
    ensures forall c | c in ids :: Mirror(t, ids[c], c)
  {
    forall c | c in ids ensures Mirror(t, ids[c], c) { MirrorStays(s, t, ids[c], c); }
  }

  /** The objects are a picture of a system that the steps led to; `but` is a client still to be redrawn. */
  ghost predicate Drawn(clients: map<string, set<Client>>, ids: map<Client, nat>, past: seq<Step>, s: System, but: set<Client>)
    reads ids.Keys - but
  {
    Path(past, s) && Injective(ids) && Filed(clients, ids, s) && forall c | c in ids.Keys - but :: Mirror(s, ids[c], c)
  }

  lemma OneStep(past: seq<Step>, s: System, st: Step)
    requires Path(past, s) && Enabled(s, st)
    ensures Path(past + [st], Apply(s, st))
  {
    Schedule.OneMore(Enabled, Do, Start, past, s, st);
  }

  lemma DrawnWithOneMore(clients: map<string, set<Client>>, ids: map<Client, nat>, past: seq<Step>, s: System, c: Client, n: nat)
    requires Drawn(clients, ids, past, s, {}) && s.sending.None? && c !in ids && n !in s.conns
    requires !c.closed && c.writing && c.queue == []
    ensures Drawn(clients[c.tid := Of(clients, c.tid) + {c}], ids[c := n], past + [Connect(n, c.tid)], DoConnect(s, n, c.tid), {})
  {
    OneStep(past, s, Connect(n, c.tid));
    FiledWithOneMore(clients, ids, s, c, n);
    MirrorsStay(s, DoConnect(s, n, c.tid), ids);
    assert Bodies(s.log, []) == [];
  }

  lemma DrawnWithOneLess(clients: map<string, set<Client>>, ids: map<Client, nat>, past: seq<Step>, s: System, c: Client)
    requires Drawn(clients, ids, past, s, {}) && s.sending.None? && c in ids && !c.closed
    ensures Drawn(if c.tid in clients then clients[c.tid := clients[c.tid] - {c}] else clients, ids,
                  past + [Leave(ids[c])], DoLeave(s, ids[c]), {c})
  {
    MembersAreOpen(past, s, ids[c]);
    OneStep(past, s, Leave(ids[c]));
    FiledWithOneLess(clients, ids, s, c);
    MirrorsStay(s, DoLeave(s, ids[c]), ids - {c});
  }

  /** A step that leaves the members and the other connections alone. */
  lemma DrawnAfter(clients: map<string, set<Client>>, ids: map<Client, nat>, past: seq<Step>, s: System, st: Step, c: Client)
    requires Drawn(clients, ids, past, s, {}) && c in ids && Enabled(s, st) && Apply(s, st).members == s.members
    requires s.log <= Apply(s, st).log && forall n | n in s.conns && n != ids[c] :: n in Apply(s, st).conns && Apply(s, st).conns[n] == s.conns[n]
    ensures Drawn(clients, ids, past + [st], Apply(s, st), {c})
  {
    OneStep(past, s, st);
    FiledAsBefore(clients, ids, s, Apply(s, st));
    MirrorsStay(s, Apply(s, st), ids - {c});
  }

  lemma LeftShows(s: System, n: nat, c: Client)
    requires Mirror(s, n, c)
    ensures Shows(DoLeave(s, n), n, c.tid, c.queue, true, c.writing)
  {
  }

  lemma PoppedShows(s: System, n: nat, c: Client, ok: bool)
    requires Mirror(s, n, c) && c.queue != [] && c.writing
    ensures var st := if ok then Write(n) else WriteFails(n);
      Enabled(s, st) && Shows(Apply(s, st), n, c.tid, c.queue[1..], c.closed, ok)
  {
    assert Bodies(s.log, s.conns[n].queue[1..]) == c.queue[1..];
  }

  lemma OfferedShows(s: System, n: nat, c: Client)
    requires Mirror(s, n, c) && s.sending.Some? && s.sending.value.n < |s.log|
    ensures Shows(DoSendTo(s, n), n, c.tid, Pushed(c.queue, s.log[s.sending.value.n].body), c.closed, c.writing)
  {
    OfferIsPush(s.log, s.conns[n], s.sending.value.n);
  }

  lemma Redrawn(clients: map<string, set<Client>>, ids: map<Client, nat>, past: seq<Step>, s: System, c: Client)
    requires Drawn(clients, ids, past, s, {c}) && c in ids && Mirror(s, ids[c], c)
    ensures Drawn(clients, ids, past, s, {})
  {
  }

  /** The subscriber holds the read lock and has these connections of the tenant to go. */
  ghost predicate StillSending(s: System, todo: set<nat>, tid: string, body: string) {
    s.sending.Some? && s.sending.value.pending == todo && s.sending.value.n < |s.log|
    && s.log[s.sending.value.n] == Message(tid, body)
  }

  ghost function Sends(order: seq<nat>): seq<Step> {
    seq(|order|, i requires 0 <= i < |order| => SendTo(order[i]))
  }

  lemma NumbersWithout(ids: map<Client, nat>, cs: set<Client>, c: Client)
    requires Injective(ids) && cs <= ids.Keys && c in cs
    ensures Numbers(ids, cs - {c}) == Numbers(ids, cs) - {ids[c]}
  {
  }

  /** A step that leaves every connection and the members alone. */
  lemma DrawnAlike(clients: map<string, set<Client>>, ids: map<Client, nat>, past: seq<Step>, s: System, st: Step)
    requires Drawn(clients, ids, past, s, {}) && Enabled(s, st) && (st.Begin? || st.End?)
    ensures Drawn(clients, ids, past + [st], Apply(s, st), {})
  {
    OneStep(past, s, st);
    FiledAsBefore(clients, ids, s, Apply(s, st));
    MirrorsStay(s, Apply(s, st), ids);
  }

  lemma DrawnBegun(clients: map<string, set<Client>>, ids: map<Client, nat>, past: seq<Step>, s: System, tid: string, body: string)
    requires Drawn(clients, ids, past, s, {}) && s.sending.None?
    ensures var t := DoBegin(s, tid, body);
      Drawn(clients, ids, past + [Begin(tid, body)], t, {}) && Of(clients, tid) <= ids.Keys
      && StillSending(t, Numbers(ids, Of(clients, tid)), tid, body)
  {
    DrawnAlike(clients, ids, past, s, Begin(tid, body));
    assert FiledAt(clients, ids, s, tid);
  }

  lemma DrawnSent(clients: map<string, set<Client>>, ids: map<Client, nat>, past: seq<Step>, s: System,
                  c: Client, pending: set<Client>, tid: string, body: string)
    requires Drawn(clients, ids, past, s, {}) && c in pending && pending <= Of(clients, tid) && pending <= ids.Keys
    requires StillSending(s, Numbers(ids, pending), tid, body)
    ensures !c.closed && Enabled(s, SendTo(ids[c]))
    ensures var t := DoSendTo(s, ids[c]);
      Drawn(clients, ids, past + [SendTo(ids[c])], t, {c}) && StillSending(t, Numbers(ids, pending - {c}), tid, body)
      && Shows(t, ids[c], c.tid, Pushed(c.queue, body), c.closed, c.writing)
  {
    assert FiledAt(clients, ids, s, tid);
    assert ids[c] in Numbers(ids, pending) && ids[c] in Numbers(ids, Of(clients, tid));
    MembersAreOpen(past, s, ids[c]);
    DrawnAfter(clients, ids, past, s, SendTo(ids[c]), c);
    OfferedShows(s, ids[c], c);
    NumbersWithout(ids, pending, c);
  }

  /** The hub. `sys` is the system it stands for, `ids` which connection each client is, `past` how it came about. */
  class Registry {
    var clients: map<string, set<Client>>
    ghost var sys: System
    ghost var ids: map<Client, nat>
    ghost var past: seq<Step>

    /** The objects are the picture, and nobody holds the lock. */
    ghost predicate Valid()
      reads this, ids.Keys
    {
      Drawn(clients, ids, past, sys, {}) && sys.sending.None?
    }

    constructor ()
      ensures Valid() && ids == map[] && past == []
    {
      clients, sys, ids, past := map[], Start, map[], [];
    }

    method Register(c: Client)
      requires Valid() && c !in ids && !c.closed && c.writing && c.queue == []
      modifies this
      ensures Valid() && c in ids && ids == old(ids)[c := ids[c]] && past == old(past) + [Connect(ids[c], c.tid)]
    {
      hide Drawn;
      ghost var n := FreshId(sys.conns.Keys);
      DrawnWithOneMore(clients, ids, past, sys, c, n);
      var filed := if c.tid in clients then clients[c.tid] else {};
      clients := clients[c.tid := filed + {c}];
      ids, past, sys := ids[c := n], past + [Connect(n, c.tid)], DoConnect(sys, n, c.tid);
    }

    method Unregister(c: Client)
      requires Valid() && c in ids && !c.closed
      modifies this, c`closed
      ensures Valid() && ids == old(ids) && c.closed && past == old(past) + [Leave(ids[c])]
    {
      DrawnWithOneLess(clients, ids, past, sys, c);
      LeftShows(sys, ids[c], c);
      if c.tid in clients { clients := clients[c.tid := clients[c.tid] - {c}]; }
      past, sys := past + [Leave(ids[c])], DoLeave(sys, ids[c]);
      c.Close();
      Redrawn(clients, ids, past, sys, c);
    }

    /** One round of writePump's loop: a frame is taken, and written or lost with the connection. */
    method WriteNext(c: Client, ok: bool)
      requires Valid() && c in ids && c.writing && c.queue != []
      modifies this, c`queue, c`writing
      ensures Valid() && ids == old(ids) && past == old(past) + [if ok then Write(ids[c]) else WriteFails(ids[c])]
      ensures c.queue == old(c.queue)[1..] && c.writing == ok
    {
      ghost var st := if ok then Write(ids[c]) else WriteFails(ids[c]);
      PoppedShows(sys, ids[c], c, ok);
      DrawnAfter(clients, ids, past, sys, st, c);
      past, sys := past + [st], Apply(sys, st);
      c.queue := c.queue[1..];
      c.writing := ok;
      Redrawn(clients, ids, past, sys, c);
    }

    /** Every client of the tenant is offered the frame exactly once, in whatever order the set gives them. */
    method Broadcast(tid: string, body: string) returns (ghost order: seq<nat>)
      requires Valid()
      modifies this`sys, this`past, Of(clients, tid)`queue
      ensures Valid() && past == old(past) + [Begin(tid, body)] + Sends(order) + [End]
      ensures forall c | c in Of(clients, tid) :: c.queue == Pushed(old(c.queue), body)
    {
      hide Drawn;
      DrawnBegun(clients, ids, past, sys, tid, body);
      past, sys := past + [Begin(tid, body)], DoBegin(sys, tid, body);
      order := FanOut(tid, body);
      DrawnAlike(clients, ids, past, sys, End);
      past, sys := past + [End], sys.(sending := None);
    }

    /** The lock is held and these clients are to go. */
    ghost predicate During(pending: set<Client>, tid: string, body: string)
      reads this, ids.Keys
    {
      pending <= Of(clients, tid) && pending <= ids.Keys && Drawn(clients, ids, past, sys, {})
      && StillSending(sys, Numbers(ids, pending), tid, body)
    }

    method FanOut(tid: string, body: string) returns (ghost order: seq<nat>)
      requires During(Of(clients, tid), tid, body)
      modifies this`sys, this`past, Of(clients, tid)`queue
      ensures During({}, tid, body) && past == old(past) + Sends(order)
      ensures forall c | c in Of(clients, tid) :: c.queue == Pushed(old(c.queue), body)
    {
      hide During;
      order := [];
      var pending: set<Client> := if tid in clients then clients[tid] else {};
      while pending != {}
        invariant pending <= Of(clients, tid) && During(pending, tid, body) && past == old(past) + Sends(order)
        invariant forall c | c in Of(clients, tid) :: c.queue == if c in pending then old(c.queue) else Pushed(old(c.queue), body)
        decreases |pending|
      {
        var c :| c in pending;
        SendOne(c, tid, body, pending);
        order := order + [ids[c]];
        pending := pending - {c};
      }
    }

    /** One turn of the loop. */
    method SendOne(c: Client, tid: string, body: string, ghost pending: set<Client>)
      requires c in pending && During(pending, tid, body)
      modifies this`sys, this`past, c`queue
      ensures During(pending - {c}, tid, body) && c in ids
      ensures past == old(past) + [SendTo(ids[c])] && c.queue == Pushed(old(c.queue), body)
    {
      DrawnSent(clients, ids, past, sys, c, pending, tid, body);
      past, sys := past + [SendTo(ids[c])], DoSendTo(sys, ids[c]);
      c.TrySend(body);
      Redrawn(clients, ids, past, sys, c);
    }
  }

  ghost function FreshId(used: set<nat>): (n: nat)
    ensures n !in used
  {
    UnusedId(used);
    var n: nat :| n !in used;
    n
  }

  lemma {:induction false} UnusedId(used: set<nat>)
    ensures exists n: nat :: n !in used
  {
    var n := Above(used);
    assert n !in used;
  }

  lemma {:induction false} Above(used: set<nat>) returns (n: nat)
    ensures forall m | m in used :: m < n
    decreases |used|
  {
    n := 0;
    if used != {} {
      var m :| m in used;
      n := Above(used - {m});
      if n <= m { n := m + 1; }
      assert forall k | k in used :: k == m || k in used - {m};
    }
  }
}
