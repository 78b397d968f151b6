/** The engine against a peer that answers each request exactly once, in any order and after
    any delay. Requests are numbered; the peer's answer to request r carries r. */
module IoProtocol {
  import opened Prelude
  import opened TagAllocator
  import opened Streams
  import opened IoEngines

  /** A request on its way: its tag and its number. */
  datatype Ticket = Ticket(tag: nat, r: nat)

  /** A request that was sent. The awaiter either still waits, or its answer came (then `reissued`
      says whether its tag has been handed out since, `woken` whether its coroutine was posted),
      or is over. */
  datatype Request =
    | Waiting(tag: nat)
    | Abandoned(tag: nat)               // destroyed before the answer came
    | Posted(tag: nat, reissued: bool, woken: bool)
    | Over(tag: nat)

  datatype World = World(
    e: Engine, peer: multiset<Ticket>, rx: seq<Tlp>, requests: map<nat, Request>,
    issued: map<nat, nat>)  // the request each active tag was handed out for

  datatype Step =
    | Submit(r: nat) | PeerTakes | PeerAnswers(t: Ticket, channel: nat) | PeerStreams(tlp: Tlp)
    | Poll | Resume(r: nat) | Destroy(r: nat)

  function Init(txCap: nat, mem: Memory): World {
    var blank := Channel(None, NO_SPAN, 0, 0, EMPTY, 0, 0);
    World(
      Engine(Tags(seq(TAGS + 1, _ => false), 1), seq(TAGS + 1, _ => None), seq(TAGS + 1, _ => EMPTY),
             [], txCap, seq(CHANNELS, _ => blank), mem),
      multiset{}, [], map[], map[])
  }

  /** The tickets of the requests and answers among these packets. */
  function Tickets(q: seq<Tlp>): multiset<Ticket> {
    if q == [] then multiset{}
    else
      Tickets(q[..|q| - 1])
      + var p := q[|q| - 1]; if !p.stream && p.body.Data? then multiset{Ticket(p.tag, p.body.n)} else multiset{}
  }

  function RequestPacket(r: nat): Tlp {
    Tlp(false, 0, 1, Data(r))
  }

  predicate Enabled(s: World, step: Step) {
    EngineOk(s.e) &&
    match step
    case Submit(r) => r !in s.requests
    case PeerTakes => s.e.tx != []
    case PeerAnswers(t, _) => t in s.peer
    case PeerStreams(tlp) => tlp.stream
    case Poll => s.rx != []
    case Resume(r) => r in s.requests && s.requests[r].Posted? && s.requests[r].woken && s.requests[r].tag <= TAGS
    case Destroy(r) =>
      r in s.requests && (s.requests[r].Waiting? || s.requests[r].Posted?) && s.requests[r].tag <= TAGS
  }

  /** Tag `t` is handed out again: whoever was posted with it and has not resumed is marked. */
  function Reissue(requests: map<nat, Request>, t: nat): map<nat, Request> {
    map r | r in requests ::
      if requests[r].Posted? && requests[r].tag == t then Posted(t, true, requests[r].woken) else requests[r]
  }

  function SubmitStep(s: World, r: nat): World
    requires EngineOk(s.e)
  {
    var (t, sent, e) := SubmitSpec(s.e, r, RequestPacket(r));
    var old' := if t == 0 then s.requests else Reissue(s.requests, t);
    if sent then s.(e := e, requests := old'[r := Waiting(t)], issued := s.issued[t := r])
    else s.(e := e, requests := old')
  }

  function PollStep(s: World): World
    requires EngineOk(s.e) && s.rx != []
  {
    var tlp := s.rx[0];
    var (e, posted) := PollOneSpec(s.e, tlp);
    var t := s.(e := e, rx := s.rx[1..]);
    if tlp.stream || tlp.tag !in s.issued then t
    else
      var r := s.issued[tlp.tag];
      t.(issued := s.issued - {tlp.tag},
         requests := if r !in s.requests then s.requests
                     else if s.requests[r].Waiting? then s.requests[r := Posted(tlp.tag, false, posted == Some(r))]
                     else s.requests[r := Over(tlp.tag)])
  }

  function Apply(s: World, step: Step): World
    requires Enabled(s, step)
  {
    match step
    case Submit(r) => SubmitStep(s, r)
    case PeerTakes => s.(e := s.e.(tx := s.e.tx[1..]), peer := s.peer + Tickets(s.e.tx[..1]))
    case PeerAnswers(t, channel) =>
      s.(peer := s.peer - multiset{t}, rx := s.rx + [Tlp(false, t.tag, channel, Data(t.r))])
    case PeerStreams(tlp) => s.(rx := s.rx + [tlp])
    case Poll => PollStep(s)
    case Resume(r) =>
      var t := s.requests[r].tag;
      s.(e := DestroySpec(s.e, t, true), requests := s.requests[r := Over(t)])
    case Destroy(r) =>
      var t := s.requests[r].tag;
      s.(e := DestroySpec(s.e, t, true),
         requests := s.requests[r := if s.requests[r].Waiting? then Abandoned(t) else Over(t)])
  }

  /** Everything in flight: in the transmit ring, at the peer, in the receive ring. */
  function InFlight(s: World): multiset<Ticket> {
    Tickets(s.e.tx) + s.peer + Tickets(s.rx)
  }

  /** `m` holds exactly one ticket for each issued tag, the one of its request. */
  ghost predicate OneEach(m: multiset<Ticket>, issued: map<nat, nat>) {
    forall x :: m[x] == if x.tag in issued && issued[x.tag] == x.r then 1 else 0
  }

  /** The active tags are the issued ones, and every packet in a ring is well formed. */
  ghost predicate ShapeInv(s: World) {
    && EngineOk(s.e)
    && (forall t :: 0 <= t <= TAGS ==> (s.e.tags.active[t] <==> t in s.issued))
    && (forall t :: t in s.issued ==> 1 <= t <= TAGS)
    && (forall i :: 0 <= i < |s.e.tx| ==> !s.e.tx[i].stream && s.e.tx[i].body.Data?)
    && (forall i :: 0 <= i < |s.rx| ==> s.rx[i].stream || s.rx[i].body.Data?)
  }

  /** The tags in flight are the active ones, each once, for the request it was handed to. */
  ghost predicate FlightInv(s: World) {
    ShapeInv(s) && OneEach(InFlight(s), s.issued)
  }

  lemma TicketsSnoc(q: seq<Tlp>, p: Tlp)
    ensures Tickets(q + [p]) == Tickets(q) + Tickets([p])
  {
    assert (q + [p])[..|q|] == q;
    assert [p][..0] == [];
  }

  lemma {:induction false} TicketsConcat(p: seq<Tlp>, q: seq<Tlp>)
    ensures Tickets(p + q) == Tickets(p) + Tickets(q)
  {
    if q == [] {
      assert p + q == p;
    } else {
      var n := |q| - 1;
      assert p + q == (p + q[..n]) + [q[n]];
      assert q == q[..n] + [q[n]];
      TicketsSnoc(p + q[..n], q[n]);
      TicketsSnoc(q[..n], q[n]);
      TicketsConcat(p, q[..n]);
    }
  }

  lemma TicketsHead(q: seq<Tlp>)
    requires q != []
    ensures Tickets(q) == Tickets([q[0]]) + Tickets(q[1..]) && q[..1] == [q[0]]
  {
    TicketsConcat([q[0]], q[1..]);
    assert [q[0]] + q[1..] == q;
  }

  lemma OneTicket(p: Tlp)
    ensures Tickets([p]) == if !p.stream && p.body.Data? then multiset{Ticket(p.tag, p.body.n)} else multiset{}
  {
    assert [p][..0] == [];
  }

  lemma OneEachAdds(m: multiset<Ticket>, issued: map<nat, nat>, t: nat, r: nat)
    requires OneEach(m, issued) && t !in issued
    ensures OneEach(m + multiset{Ticket(t, r)}, issued[t := r])
  {
  }

  lemma OneEachDrops(m: multiset<Ticket>, issued: map<nat, nat>, t: nat)
    requires t in issued && OneEach(m + multiset{Ticket(t, issued[t])}, issued)
    ensures OneEach(m, issued - {t})
  {
    forall x
      ensures m[x] == if x.tag in issued - {t} && issued[x.tag] == x.r then 1 else 0
    {
      assert (m + multiset{Ticket(t, issued[t])})[x] == m[x] + if x == Ticket(t, issued[t]) then 1 else 0;
    }
  }

  lemma SubmitFlight(s: World, r: nat)
    requires FlightInv(s) && r !in s.requests
    ensures FlightInv(SubmitStep(s, r))
  {
    RefusedExactly(s.e, r, RequestPacket(r));
    var (t, sent, e) := SubmitSpec(s.e, r, RequestPacket(r));
    if sent {
      SentFlight(s, r, t, SubmitStep(s, r));
    }
  }

  lemma SentFlight(s: World, r: nat, t: nat, u: World)
    requires FlightInv(s) && 1 <= t <= TAGS && !s.e.tags.active[t] && EngineOk(u.e)
    requires u.e.tx == s.e.tx + [RequestPacket(r).(tag := t)] && u.peer == s.peer && u.rx == s.rx
    requires u.e.tags.active == s.e.tags.active[t := true] && u.issued == s.issued[t := r]
    ensures FlightInv(u)
  {
    var p := RequestPacket(r).(tag := t);
    TicketsSnoc(s.e.tx, p);
    OneTicket(p);
    OneEachAdds(InFlight(s), s.issued, t, r);
    assert InFlight(u) == InFlight(s) + multiset{Ticket(t, r)};
  }

  /** A polled answer belongs to the request its tag was handed out for. */
  lemma AnswerMatches(s: World)
    requires FlightInv(s) && s.rx != [] && !s.rx[0].stream
    ensures var p := s.rx[0];
      && p.tag in s.issued && p.body == Data(s.issued[p.tag]) && p.tag <= TAGS && s.e.tags.active[p.tag]
      && InFlight(s) == InFlight(s.(rx := s.rx[1..])) + multiset{Ticket(p.tag, s.issued[p.tag])}
  {
    var p := s.rx[0];
    TicketsHead(s.rx);
    OneTicket(p);
    assert Ticket(p.tag, p.body.n) in Tickets(s.rx);
    assert Ticket(p.tag, p.body.n) in InFlight(s);
  }

  /** Unchanged tags, rings and issue: nothing moved. */
  lemma QuietFlight(s: World, u: World)
    requires FlightInv(s) && EngineOk(u.e) && u.e.tags == s.e.tags && u.issued == s.issued
    requires u.e.tx == s.e.tx && u.peer == s.peer && u.rx == s.rx
    ensures FlightInv(u)
  {
    assert InFlight(u) == InFlight(s);
  }

  /** What polling one packet leaves alone. */
  lemma PollTouches(e: Engine, tlp: Tlp)
    requires EngineOk(e)
    ensures var f := PollOneSpec(e, tlp).0;
      && EngineOk(f) && f.tx == e.tx && f.txCap == e.txCap
      && (tlp.stream ==> f.tags == e.tags && f.coros == e.coros && f.resps == e.resps)
      && (!tlp.stream && tlp.tag <= TAGS && e.tags.active[tlp.tag] ==>
            && f.tags == ReleaseSpec(e.tags, tlp.tag) && f.coros == e.coros[tlp.tag := None]
            && f.resps == e.resps[tlp.tag := tlp])
  {
  }

  lemma StreamPolled(s: World, u: World)
    requires FlightInv(s) && s.rx != [] && s.rx[0].stream && EngineOk(u.e)
    requires u.e.tags == s.e.tags && u.e.tx == s.e.tx && u.peer == s.peer && u.rx == s.rx[1..] && u.issued == s.issued
    ensures FlightInv(u)
  {
    TicketsHead(s.rx);
    OneTicket(s.rx[0]);
    assert InFlight(u) == InFlight(s);
  }

  lemma AnswerPolled(s: World, u: World)
    requires FlightInv(s) && s.rx != [] && !s.rx[0].stream && EngineOk(u.e)
    requires s.rx[0].tag <= TAGS && u.e.tags == ReleaseSpec(s.e.tags, s.rx[0].tag) && u.e.tx == s.e.tx
        && u.peer == s.peer
    requires u.rx == s.rx[1..] && u.issued == s.issued - {s.rx[0].tag}
    ensures FlightInv(u)
  {
    var t := s.rx[0].tag;
    AnswerMatches(s);
    var left := InFlight(s.(rx := s.rx[1..]));
    OneEachDrops(left, s.issued, t);
    assert InFlight(u) == left;
  }

  lemma PollFlight(s: World)
    requires FlightInv(s) && s.rx != []
    ensures FlightInv(PollStep(s))
  {
    PollTouches(s.e, s.rx[0]);
    if s.rx[0].stream {
      StreamPolled(s, PollStep(s));
    } else {
      AnswerMatches(s);
      AnswerPolled(s, PollStep(s));
    }
  }

  lemma TakeFlight(s: World, u: World)
    requires FlightInv(s) && s.e.tx != [] && EngineOk(u.e) && u.e.tags == s.e.tags && u.issued == s.issued
    requires u.e.tx == s.e.tx[1..] && u.peer == s.peer + Tickets(s.e.tx[..1]) && u.rx == s.rx
    ensures FlightInv(u)
  {
    TicketsHead(s.e.tx);
    assert InFlight(u) == InFlight(s);
  }

  lemma Arrived(s: World, p: Tlp, peer: multiset<Ticket>)
    requires s.peer == peer + Tickets([p])
    ensures InFlight(s.(peer := peer, rx := s.rx + [p])) == InFlight(s)
  {
    TicketsSnoc(s.rx, p);
  }

  lemma ArriveFlight(s: World, p: Tlp, peer: multiset<Ticket>)
    requires FlightInv(s) && (p.stream || p.body.Data?) && s.peer == peer + Tickets([p])
    ensures FlightInv(s.(peer := peer, rx := s.rx + [p]))
  {
    Arrived(s, p, peer);
    assert ShapeInv(s.(peer := peer, rx := s.rx + [p]));
  }

  lemma PeerFlight(s: World, step: Step)
    requires FlightInv(s) && Enabled(s, step) && (step.PeerTakes? || step.PeerAnswers? || step.PeerStreams?)
    ensures FlightInv(Apply(s, step))
  {
    match step
    case PeerTakes => TakeFlight(s, Apply(s, PeerTakes));
    case PeerAnswers(t, channel) =>
      var p := Tlp(false, t.tag, channel, Data(t.r));
      OneTicket(p);
      ArriveFlight(s, p, s.peer - multiset{t});
    case PeerStreams(tlp) =>
      OneTicket(tlp);
      ArriveFlight(s, tlp, s.peer);
  }

  lemma FlightKeeps(s: World, step: Step)
    requires FlightInv(s) && Enabled(s, step)
    ensures FlightInv(Apply(s, step))
  {
    match step
    case Submit(r) => SubmitFlight(s, r);
    case Poll => PollFlight(s);
    case Resume(r) => QuietFlight(s, Apply(s, step));
    case Destroy(r) => QuietFlight(s, Apply(s, step));
    case _ => PeerFlight(s, step);
  }

  // ---------------------------------------------------------------------------
  // Whose answer an awaiter reads
  // ---------------------------------------------------------------------------

  predicate Outstanding(q: Request) {
    q.Waiting? || q.Abandoned?
  }

  /** Issued tags and outstanding requests correspond one to one. */
  ghost predicate IssueInv(s: World) {
    && (forall t :: t in s.issued ==>
          s.issued[t] in s.requests && s.requests[s.issued[t]].tag == t && Outstanding(s.requests[s.issued[t]]))
    && (forall r :: r in s.requests && Outstanding(s.requests[r]) ==>
          s.requests[r].tag in s.issued && s.issued[s.requests[r].tag] == r)
    && (forall r :: r in s.requests ==> 1 <= s.requests[r].tag <= TAGS)
  }

  /** A slot holds at most the coroutine of the request its tag was handed out for. */
  ghost predicate SlotInv(s: World)
    requires EngineOk(s.e)
  {
    forall t :: 0 <= t <= TAGS && s.e.coros[t].Some? ==>
      t in s.issued && s.issued[t] == s.e.coros[t].value
      && s.issued[t] in s.requests && s.requests[s.issued[t]].Waiting?
  }

  /** A posted request's answer is in its tag's slot until the tag is handed out again. */
  ghost predicate AnswerInv(s: World)
    requires EngineOk(s.e)
  {
    forall r :: r in s.requests && s.requests[r].Posted? && s.requests[r].tag <= TAGS ==>
      var t := s.requests[r].tag;
      if s.requests[r].reissued then s.e.resps[t].body != Data(r)
      else t !in s.issued && s.e.resps[t].body == Data(r)
  }

  ghost predicate Inv(s: World) {
    FlightInv(s) && IssueInv(s) && SlotInv(s) && AnswerInv(s)
  }

  lemma SubmitKeeps(s: World, r: nat)
    requires Inv(s) && r !in s.requests
    ensures Inv(SubmitStep(s, r))
  {
    SubmitFlight(s, r);
    RefusedExactly(s.e, r, RequestPacket(r));
    AllocateExact(s.e.tags);
    var (t, sent, e) := SubmitSpec(s.e, r, RequestPacket(r));
    if t != 0 {
      SubmitShape(s, r);
      if sent {
        SentRequests(s, SubmitStep(s, r), r, t);
      } else {
        FullRequests(s, SubmitStep(s, r), t);
      }
    }
  }

  /** What a submit does to responses, slots and requests when a tag was free. */
  lemma SubmitShape(s: World, r: nat)
    requires Inv(s) && r !in s.requests && SubmitSpec(s.e, r, RequestPacket(r)).0 != 0
    ensures var (t, sent, e) := SubmitSpec(s.e, r, RequestPacket(r));
      var u := SubmitStep(s, r);
      && 1 <= t <= TAGS && t !in s.issued && EngineOk(u.e) && s.e.coros[t] == None
      && u.e.resps == s.e.resps[t := EMPTY]
      && (sent ==>
            && u.e.coros == s.e.coros[t := Some(r)] && u.issued == s.issued[t := r]
            && u.requests == Reissue(s.requests, t)[r := Waiting(t)])
      && (!sent ==> u.e.coros == s.e.coros && u.issued == s.issued && u.requests == Reissue(s.requests, t))
  {
    AllocateExact(s.e.tags);
    var t := SubmitSpec(s.e, r, RequestPacket(r)).0;
    assert s.e.coros[t] == None;
    assert s.e.coros[t := None] == s.e.coros;
  }

  lemma SentRequests(s: World, u: World, r: nat, t: nat)
    requires Inv(s) && r !in s.requests && 1 <= t <= TAGS && t !in s.issued && EngineOk(u.e)
    requires u.e.resps == s.e.resps[t := EMPTY] && u.e.coros == s.e.coros[t := Some(r)]
    requires u.issued == s.issued[t := r] && u.requests == Reissue(s.requests, t)[r := Waiting(t)]
    ensures IssueInv(u) && SlotInv(u) && AnswerInv(u)
  {
    SentIssue(s, u, r, t);
    SentSlots(s, u, r, t);
  }

  lemma SentSlots(s: World, u: World, r: nat, t: nat)
    requires EngineOk(s.e) && SlotInv(s) && r !in s.requests && 1 <= t <= TAGS && t !in s.issued && EngineOk(u.e)
    requires u.e.coros == s.e.coros[t := Some(r)]
    requires u.issued == s.issued[t := r] && u.requests == Reissue(s.requests, t)[r := Waiting(t)]
    ensures SlotInv(u)
  {
  }

  lemma SentIssue(s: World, u: World, r: nat, t: nat)
    requires IssueInv(s) && r !in s.requests && 1 <= t <= TAGS && t !in s.issued
    requires u.issued == s.issued[t := r] && u.requests == Reissue(s.requests, t)[r := Waiting(t)]
    ensures IssueInv(u)
  {
  }

  lemma FullRequests(s: World, u: World, t: nat)
    requires Inv(s) && 1 <= t <= TAGS && t !in s.issued && EngineOk(u.e)
    requires u.e.resps == s.e.resps[t := EMPTY] && u.e.coros == s.e.coros
    requires u.issued == s.issued && u.requests == Reissue(s.requests, t)
    ensures IssueInv(u) && SlotInv(u) && AnswerInv(u)
  {
  }

  lemma AnsweredRequests(s: World, u: World, p: Tlp)
    requires Inv(s) && p.tag in s.issued && p.tag <= TAGS && p.body == Data(s.issued[p.tag]) && EngineOk(u.e)
    requires u.e.coros == s.e.coros[p.tag := None] && u.e.resps == s.e.resps[p.tag := p]
    requires u.issued == s.issued - {p.tag}
    requires var r := s.issued[p.tag];
      u.requests ==
      if s.requests[r].Waiting? then s.requests[r := Posted(p.tag, false, s.e.coros[p.tag] == Some(r))]
      else s.requests[r := Over(p.tag)]
    ensures IssueInv(u) && SlotInv(u) && AnswerInv(u)
  {
    var r := s.issued[p.tag];
    AnsweredIssue(s, u, p.tag, r, u.requests[r]);
    AnsweredAnswers(s, u, p, r, u.requests[r]);
  }

  lemma AnsweredIssue(s: World, u: World, t: nat, r: nat, q: Request)
    requires IssueInv(s) && t in s.issued && s.issued[t] == r && !Outstanding(q) && q.tag == t
    requires u.issued == s.issued - {t} && u.requests == s.requests[r := q]
    ensures IssueInv(u)
  {
  }

  lemma AnsweredAnswers(s: World, u: World, p: Tlp, r: nat, q: Request)
    requires Inv(s) && EngineOk(u.e) && p.tag <= TAGS && p.tag in s.issued && s.issued[p.tag] == r && p.body == Data(r)
    requires u.e.coros == s.e.coros[p.tag := None] && u.e.resps == s.e.resps[p.tag := p]
    requires u.issued == s.issued - {p.tag} && u.requests == s.requests[r := q]
    requires q.tag == p.tag && (q.Over? || (q.Posted? && !q.reissued))
    ensures SlotInv(u) && AnswerInv(u)
  {
  }

  lemma PollKeeps(s: World)
    requires Inv(s) && s.rx != []
    ensures Inv(PollStep(s))
  {
    PollFlight(s);
    PollTouches(s.e, s.rx[0]);
    if !s.rx[0].stream {
      AnswerMatches(s);
      AnsweredRequests(s, PollStep(s), s.rx[0]);
    }
  }

  lemma EndRequests(s: World, u: World, r: nat, q: Request)
    requires Inv(s) && r in s.requests && EngineOk(u.e) && u.issued == s.issued && u.e.resps == s.e.resps
    requires var t := s.requests[r].tag;
      1 <= t <= TAGS && u.e.coros == s.e.coros[t := None]
      && ((s.requests[r].Waiting? && q == Abandoned(t)) || (s.requests[r].Posted? && q == Over(t)))
    requires u.requests == s.requests[r := q]
    ensures IssueInv(u) && SlotInv(u) && AnswerInv(u)
  {
  }

  lemma StepKeeps(s: World, step: Step)
    requires Inv(s) && Enabled(s, step)
    ensures Inv(Apply(s, step))
  {
    FlightKeeps(s, step);
    match step
    case Submit(r) => SubmitKeeps(s, r);
    case Poll => PollKeeps(s);
    case Resume(r) => EndRequests(s, Apply(s, step), r, Over(s.requests[r].tag));
    case Destroy(r) => EndRequests(s, Apply(s, step), r, Apply(s, step).requests[r]);
    case _ =>
  }

  predicate Runs(s: World, steps: seq<Step>, t: World)
    decreases |steps|
  {
    if steps == [] then t == s else Enabled(s, steps[0]) && Runs(Apply(s, steps[0]), steps[1..], t)
  }

  lemma InitInv(txCap: nat, mem: Memory)
    ensures Inv(Init(txCap, mem))
  {
  }

  lemma {:induction false} RunKeeps(s: World, steps: seq<Step>, t: World)
    requires Inv(s) && Runs(s, steps, t)
    ensures Inv(t)
    decreases |steps|
  {
    if steps != [] {
      StepKeeps(s, steps[0]);
      RunKeeps(Apply(s, steps[0]), steps[1..], t);
    }
  }

  lemma {:induction false} RunsOn(s: World, steps: seq<Step>, t: World, step: Step)
    requires Runs(s, steps, t) && Enabled(t, step)
    ensures Runs(s, steps + [step], Apply(t, step))
    decreases |steps|
  {
    if steps == [] {
      assert steps + [step] == [step] && [step][1..] == [];
    } else {
      assert (steps + [step])[1..] == steps[1..] + [step];
      RunsOn(Apply(s, steps[0]), steps[1..], t, step);
    }
  }

  /** In every run the tags in the transmit ring, at the peer and in the receive ring are
      exactly the active tags, each once, so no two requests in flight share a tag. */
  lemma InFlightOnce(txCap: nat, mem: Memory, steps: seq<Step>, s: World)
    requires Runs(Init(txCap, mem), steps, s)
    ensures EngineOk(s.e)
    ensures forall t :: 0 <= t <= TAGS ==> (s.e.tags.active[t] <==> exists r :: InFlight(s)[Ticket(t, r)] == 1)
    ensures forall x :: x in InFlight(s) ==> InFlight(s)[x] == 1 && 1 <= x.tag <= TAGS && s.e.tags.active[x.tag]
    ensures forall x, y :: x in InFlight(s) && y in InFlight(s) && x.tag == y.tag ==> x == y
  {
    InitInv(txCap, mem);
    RunKeeps(Init(txCap, mem), steps, s);
    forall t | 0 <= t <= TAGS && s.e.tags.active[t]
      ensures exists r :: InFlight(s)[Ticket(t, r)] == 1
    {
      assert InFlight(s)[Ticket(t, s.issued[t])] == 1;
    }
  }

  // ---------------------------------------------------------------------------
  // When a waiting request is woken by its answer
  // ---------------------------------------------------------------------------

  /** The step ends the awaiter of an answered request that had the tag before `r`. */
  predicate Robs(s: World, step: Step, r: nat) {
    && r in s.requests && (step.Resume? || step.Destroy?) && step.r != r
    && step.r in s.requests && s.requests[step.r].Posted? && s.requests[step.r].tag == s.requests[r].tag
  }

  predicate Robbed(s: World, steps: seq<Step>, r: nat)
    decreases |steps|
  {
    && steps != [] && Enabled(s, steps[0])
    && (Robs(s, steps[0], r) || Robbed(Apply(s, steps[0]), steps[1..], r))
  }

  lemma NeverWaitsAgain(s: World, step: Step, r: nat)
    requires Enabled(s, step) && r in s.requests
    ensures r in Apply(s, step).requests
    ensures Apply(s, step).requests[r].Waiting? ==> s.requests[r] == Apply(s, step).requests[r]
  {
  }

  /** While a request waits, one step empties its slot exactly by ending an earlier holder's awaiter. */
  lemma SlotStep(s: World, step: Step, r: nat)
    requires Inv(s) && Enabled(s, step) && r in s.requests && s.requests[r].Waiting?
    requires r in Apply(s, step).requests && Apply(s, step).requests[r].Waiting? && EngineOk(Apply(s, step).e)
    ensures s.requests[r].tag <= TAGS
    ensures Apply(s, step).e.coros[s.requests[r].tag] == Some(r) <==>
      s.e.coros[s.requests[r].tag] == Some(r) && !Robs(s, step, r)
  {
    match step
    case Submit(n) => SubmitSlot(s, n, r);
    case Poll => PollSlot(s, r);
    case Resume(q) => EndSlot(s, step, r);
    case Destroy(q) => EndSlot(s, step, r);
    case _ =>
  }

  lemma SubmitSlot(s: World, n: nat, r: nat)
    requires Inv(s) && n !in s.requests && r in s.requests && s.requests[r].Waiting?
    ensures EngineOk(SubmitStep(s, n).e) && s.requests[r].tag <= TAGS
    ensures SubmitStep(s, n).e.coros[s.requests[r].tag] == s.e.coros[s.requests[r].tag]
  {
    AllocateExact(s.e.tags);
  }

  lemma PollSlot(s: World, r: nat)
    requires Inv(s) && s.rx != [] && r in s.requests && s.requests[r].Waiting?
    requires r in PollStep(s).requests && PollStep(s).requests[r].Waiting?
    ensures EngineOk(PollStep(s).e) && s.requests[r].tag <= TAGS
    ensures PollStep(s).e.coros[s.requests[r].tag] == s.e.coros[s.requests[r].tag]
  {
    PollTouches(s.e, s.rx[0]);
    if !s.rx[0].stream {
      AnswerMatches(s);
    }
  }

  lemma EndSlot(s: World, step: Step, r: nat)
    requires Inv(s) && Enabled(s, step) && (step.Resume? || step.Destroy?) && r in s.requests && s.requests[r].Waiting?
    requires r in Apply(s, step).requests && Apply(s, step).requests[r].Waiting? && EngineOk(Apply(s, step).e)
    ensures s.requests[r].tag <= TAGS
    ensures Apply(s, step).e.coros[s.requests[r].tag] == Some(r) <==>
      s.e.coros[s.requests[r].tag] == Some(r) && !Robs(s, step, r)
  {
    OneWaits(s, step.r, r);
  }

  /** Two waiting requests do not share a tag. */
  lemma OneWaits(s: World, q: nat, r: nat)
    requires Inv(s) && q in s.requests && r in s.requests
    ensures s.requests[q].Waiting? && s.requests[r].Waiting? && s.requests[q].tag == s.requests[r].tag ==> q == r
  {
    if s.requests[q].Waiting? && s.requests[r].Waiting? && s.requests[q].tag == s.requests[r].tag {
      assert s.issued[s.requests[r].tag] == r;
    }
  }

  lemma {:induction false} SlotKept(s: World, steps: seq<Step>, u: World, r: nat)
    requires Inv(s) && Runs(s, steps, u) && r in s.requests && r in u.requests && u.requests[r].Waiting?
    ensures s.requests[r] == u.requests[r] && u.requests[r].tag <= TAGS && EngineOk(u.e)
    ensures u.e.coros[u.requests[r].tag] == Some(r) <==>
      s.e.coros[u.requests[r].tag] == Some(r) && !Robbed(s, steps, r)
    decreases |steps|
  {
    if steps != [] {
      var v := Apply(s, steps[0]);
      StepKeeps(s, steps[0]);
      NeverWaitsAgain(s, steps[0], r);
      SlotKept(v, steps[1..], u, r);
      SlotStep(s, steps[0], r);
    }
  }

  /** In every run: a waiting request's slot holds its coroutine if, and only if, since it was sent
      no awaiter of an answered request that had its tag before was resumed or destroyed; and
      exactly then its answer posts it. */
  lemma WokenExactly(txCap: nat, mem: Memory, before: seq<Step>, s: World, r: nat, after: seq<Step>, u: World)
    requires Runs(Init(txCap, mem), before, s) && Enabled(s, Submit(r)) && r in SubmitStep(s, r).requests
    requires Runs(SubmitStep(s, r), after, u) && r in u.requests && u.requests[r].Waiting?
    ensures EngineOk(u.e) && u.requests[r].tag <= TAGS
    ensures u.e.coros[u.requests[r].tag] == Some(r) <==> !Robbed(SubmitStep(s, r), after, r)
    ensures u.rx != [] && !u.rx[0].stream && u.rx[0].body == Data(r) ==>
      PollOneSpec(u.e, u.rx[0]).1 == if Robbed(SubmitStep(s, r), after, r) then None else Some(r)
  {
    InitInv(txCap, mem);
    RunKeeps(Init(txCap, mem), before, s);
    SubmitKeeps(s, r);
    RefusedExactly(s.e, r, RequestPacket(r));
    RunKeeps(SubmitStep(s, r), after, u);
    SlotKept(SubmitStep(s, r), after, u, r);
    if u.rx != [] && !u.rx[0].stream && u.rx[0].body == Data(r) {
      AnswerMatches(u);
    }
  }

  /** A posted coroutine is the awaiter of the very request that was answered, and it still
      waits: a late answer to a destroyed request wakes nobody. */
  lemma AnswerReachesOwner(txCap: nat, mem: Memory, steps: seq<Step>, s: World)
    requires Runs(Init(txCap, mem), steps, s) && s.rx != [] && !s.rx[0].stream
    ensures EngineOk(s.e)
    ensures var posted := PollOneSpec(s.e, s.rx[0]).1;
      && s.rx[0].body.Data? && s.rx[0].body.n in s.requests
      && (posted.Some? ==> posted.value == s.rx[0].body.n && s.requests[posted.value].Waiting?)
      && (s.requests[s.rx[0].body.n].Abandoned? ==> posted == None)
  {
    InitInv(txCap, mem);
    RunKeeps(Init(txCap, mem), steps, s);
    AnswerMatches(s);
  }

  /** Own response: the awaiter of a posted request reads the peer's answer to it if, and only
      if, its tag has not been handed out again in the meantime. */
  lemma OwnResponse(txCap: nat, mem: Memory, steps: seq<Step>, s: World, r: nat)
    requires Runs(Init(txCap, mem), steps, s) && r in s.requests && s.requests[r].Posted?
    ensures EngineOk(s.e) && 1 <= s.requests[r].tag <= TAGS
    ensures ResumeSpec(s.e, s.requests[r].tag, true).body == Data(r) <==> !s.requests[r].reissued
  {
    InitInv(txCap, mem);
    RunKeeps(Init(txCap, mem), steps, s);
  }

  /** The destructor of an answered request's awaiter changes something exactly when its tag was
      handed out again to a request that still waits and whose slot no other such destructor
      has emptied; then it empties that slot. */
  lemma LateDestructor(txCap: nat, mem: Memory, steps: seq<Step>, s: World, r: nat)
    requires Runs(Init(txCap, mem), steps, s) && r in s.requests && s.requests[r].Posted?
    ensures EngineOk(s.e) && 1 <= s.requests[r].tag <= TAGS
    ensures var t := s.requests[r].tag;
      && (DestroySpec(s.e, t, true) != s.e <==>
            exists q :: q in s.requests && s.requests[q] == Waiting(t) && s.e.coros[t] == Some(q))
      && (DestroySpec(s.e, t, true) != s.e ==> s.requests[r].reissued && s.e.coros[t] != Some(r))
      && DestroySpec(s.e, t, true) == s.e.(coros := s.e.coros[t := None])
  {
    InitInv(txCap, mem);
    RunKeeps(Init(txCap, mem), steps, s);
    var t := s.requests[r].tag;
    if s.e.coros[t] == None {
      assert s.e.coros[t := None] == s.e.coros;
    } else {
      assert s.requests[s.e.coros[t].value] == Waiting(t);
      assert s.e.coros[t := None][t] != s.e.coros[t];
    }
  }
}
