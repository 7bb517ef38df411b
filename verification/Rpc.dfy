/** Requests and replies between callers and a worker: late replies, timeouts, bad frames, crashes. */
module Rpc {
  import opened Values

  type Caller = nat
  type Request(==, 0, !new)
  type Response(==, 0, !new)

  /** What a caller is told: the worker's response, or an error. */
  datatype Answer = Reply(response: Response) | TimedOut | Crashed | ProtocolFault

  /** The process that owns the port.  It is gone once it has stopped. */
  datatype Server = Server(nextId: nat, pending: map<nat, Caller>) | Stopped

  /** One answer to one caller. */
  datatype Told = Told(caller: Caller, answer: Answer)

  datatype Frame = Frame(id: nat, request: Request)
  datatype Done = Done(id: nat, response: Response)

  /** What the worker made of a request. */
  datatype Worked = Worked(request: Request, response: Response)

  // -- the callbacks ---------------------------------------------------------------------

  /** A request: a fresh id, and a frame for the worker. */
  function HandleRequest(s: Server, caller: Caller, request: Request): (Server, Frame)
    requires s.Server?
  {
    (Server(s.nextId + 1, s.pending[s.nextId := caller]), Frame(s.nextId, request))
  }

  /** A response: to the caller that waits for it, if there is still one. */
  function Deliver(s: Server, id: nat, response: Response): (Server, seq<Told>)
    requires s.Server?
  {
    if id in s.pending then (s.(pending := s.pending - {id}), [Told(s.pending[id], Reply(response))]) else (s, [])
  }

  function HandleTimeout(s: Server, id: nat): (Server, seq<Told>)
    requires s.Server?
  {
    if id in s.pending then (s.(pending := s.pending - {id}), [Told(s.pending[id], TimedOut)]) else (s, [])
  }

  /** Everyone still waiting is told, in some order. */
  ghost predicate FailsAll(s: Server, answer: Answer, told: seq<Told>)
    requires s.Server?
  {
    && (forall k :: 0 <= k < |told| ==> told[k].answer == answer)
    && (forall i, j :: 0 <= i < j < |told| ==> told[i].caller != told[j].caller)
    && forall c :: (exists k :: 0 <= k < |told| && told[k].caller == c) <==> c in s.pending.Values
  }

  predicate OneIdEach(pending: map<nat, Caller>) {
    forall i, j :: i in pending && j in pending && i != j ==> pending[i] != pending[j]
  }

  /** Told so far: everyone who waited and is not in the rest. */
  ghost predicate ToldBut(pending: map<nat, Caller>, rest: map<nat, Caller>, told: seq<Told>, answer: Answer) {
    && (forall id :: id in rest ==> id in pending && rest[id] == pending[id])
    && (forall k :: 0 <= k < |told| ==> told[k].answer == answer)
    && (forall i, j :: 0 <= i < j < |told| ==> told[i].caller != told[j].caller)
    && forall c :: IsTold(told, c) <==> c in pending.Values && c !in rest.Values
  }

  ghost predicate IsTold(told: seq<Told>, c: Caller) {
    exists k :: 0 <= k < |told| && told[k].caller == c
  }

  /** Tell everyone still waiting, one by one. */
  method FailAll(s: Server, answer: Answer) returns (s': Server, told: seq<Told>)
    requires s.Server? && OneIdEach(s.pending)
    ensures s' == s.(pending := map[]) && FailsAll(s, answer, told)
  {
    hide ToldBut, OneIdEach;
    var rest := s.pending;
    told := [];
    assert ToldBut(s.pending, rest, told, answer) by { NoneTold(s.pending, answer); }
    while rest != map[]
      invariant ToldBut(s.pending, rest, told, answer)
      decreases |rest|
    {
      var id :| id in rest;
      TellOne(s.pending, rest, id, told, answer);
      told := told + [Told(rest[id], answer)];
      rest := rest - {id};
    }
    AllTold(s, told, answer);
    s' := s.(pending := map[]);
  }

  lemma NoneTold(pending: map<nat, Caller>, answer: Answer)
    ensures ToldBut(pending, pending, [], answer)
  {
  }

  lemma AllTold(s: Server, told: seq<Told>, answer: Answer)
    requires s.Server? && ToldBut(s.pending, map[], told, answer)
    ensures FailsAll(s, answer, told)
  {
    forall c ensures (exists k :: 0 <= k < |told| && told[k].caller == c) <==> c in s.pending.Values {
      assert IsTold(told, c) <==> c in s.pending.Values;
    }
  }

  lemma LessOne(pending: map<nat, Caller>, rest: map<nat, Caller>, id: nat, c: Caller)
    requires OneIdEach(pending) && (forall i :: i in rest ==> i in pending && rest[i] == pending[i]) && id in rest
    ensures c in (rest - {id}).Values <==> c in rest.Values && c != rest[id]
  {
    if c in rest.Values && c != rest[id] {
      var i :| i in rest && rest[i] == c;
      assert i in rest - {id} && (rest - {id})[i] == c;
    }
    if c in (rest - {id}).Values {
      var i :| i in rest - {id} && (rest - {id})[i] == c;
      assert i in rest && rest[i] == c;
    }
  }

  lemma TellOne(pending: map<nat, Caller>, rest: map<nat, Caller>, id: nat, told: seq<Told>, answer: Answer)
    requires OneIdEach(pending) && ToldBut(pending, rest, told, answer) && id in rest
    ensures ToldBut(pending, rest - {id}, told + [Told(rest[id], answer)], answer)
  {
    hide OneIdEach;
    var x, told' := rest[id], told + [Told(rest[id], answer)];
    assert pending[id] == x && x in pending.Values && x in rest.Values;
    assert !IsTold(told, x);
    forall c ensures IsTold(told', c) <==> c in pending.Values && c !in (rest - {id}).Values {
      LessOne(pending, rest, id, c);
      assert IsTold(told', c) <==> IsTold(told, c) || c == x by { ToldMore(told, Told(x, answer), c); }
    }
  }

  lemma ToldMore(told: seq<Told>, one: Told, c: Caller)
    ensures IsTold(told + [one], c) <==> IsTold(told, c) || c == one.caller
  {
    var all := told + [one];
    if k :| 0 <= k < |told| && told[k].caller == c { assert all[k].caller == c; }
    if c == one.caller { assert all[|told|].caller == c; }
  }

  // -- the whole exchange ------------------------------------------------------------------

  /** `inbox` and `outbox` are the worker's, in order.  `askers`, `asked`, `computed` and `told` record
      who asked what under which id, what the worker computed from what, and what callers were told. */
  datatype Sys = Sys(
    server: Server,
    inbox: seq<Frame>,
    outbox: seq<Done>,
    askers: map<nat, Caller>,
    asked: map<nat, Request>,
    computed: map<nat, Worked>,
    told: seq<Told>)

  const INIT := Sys(Server(1, map[]), [], [], map[], map[], map[], [])

  datatype Event =
    | Call(caller: Caller, request: Request)
    | Work(response: Response)
    | Arrive
    | Fire(id: nat)
    | BadFrame(answers: seq<Told>)
    | Exit(answers: seq<Told>)

  ghost predicate Enabled(s: Sys, e: Event) {
    match e
    case Call(c, _) => s.server.Server? && c !in s.askers.Values
    case Work(_) => s.inbox != []
    case Arrive => s.server.Server? && s.outbox != []
    case Fire(_) => s.server.Server?
    case BadFrame(answers) => s.server.Server? && FailsAll(s.server, ProtocolFault, answers)
    case Exit(answers) => s.server.Server? && FailsAll(s.server, Crashed, answers)
  }

  ghost function Next(s: Sys, e: Event): Sys
    requires Enabled(s, e)
  {
    match e
    case Call(c, request) =>
      var (server, frame) := HandleRequest(s.server, c, request);
      s.(server := server, inbox := s.inbox + [frame], askers := s.askers[frame.id := c], asked :=
          s.asked[frame.id := request])
    case Work(response) =>
      var Frame(id, request) := s.inbox[0];
      s.(inbox := s.inbox[1..], outbox := s.outbox + [Done(id, response)], computed :=
          s.computed[id := Worked(request, response)])
    case Arrive =>
      var (server, told) := Deliver(s.server, s.outbox[0].id, s.outbox[0].response);
      s.(server := server, outbox := s.outbox[1..], told := s.told + told)
    case Fire(id) =>
      var (server, told) := HandleTimeout(s.server, id);
      s.(server := server, told := s.told + told)
    case BadFrame(answers) => s.(server := Stopped, told := s.told + answers)
    case Exit(answers) => s.(server := Stopped, told := s.told + answers)
  }

  ghost predicate Valid(events: seq<Event>)
    decreases |events|, 0
  {
    events == [] || (Valid(events[..|events| - 1]) && Enabled(Run(events[..|events| - 1]), events[|events| - 1]))
  }

  ghost function Run(events: seq<Event>): Sys
    requires Valid(events)
    decreases |events|, 1
  {
    if events == [] then INIT else Next(Run(events[..|events| - 1]), events[|events| - 1])
  }

  ghost predicate Answered(s: Sys, c: Caller) {
    exists k :: 0 <= k < |s.told| && s.told[k].caller == c
  }

  /** The worker computed this response from what this caller asked. */
  ghost predicate Own(s: Sys, c: Caller, r: Response) {
    exists id :: id in s.askers && s.askers[id] == c && id in s.computed && id in s.asked
        && s.computed[id] == Worked(s.asked[id], r)
  }

  predicate Waits(s: Sys, id: nat) {
    s.server.Server? && id in s.server.pending
  }

  /** Who waits is exactly who asked and was not told; nobody is told twice; a response is the asker's own. */
  ghost predicate Inv(s: Sys) {
    && IdsOk(s)
    && (forall i, j :: i in s.askers && j in s.askers && i != j ==> s.askers[i] != s.askers[j])
    && (forall id :: Waits(s, id) ==> id in s.askers && s.server.pending[id] == s.askers[id])
    && (forall id :: id in s.askers ==> (Waits(s, id) <==> !Answered(s, s.askers[id])))
    && ToldOk(s)
  }

  /** Ids in transit are known, and each is computed at most once. */
  ghost predicate IdsOk(s: Sys) {
    && (s.server.Server? ==> forall id :: id in s.askers ==> id < s.server.nextId)
    && s.asked.Keys == s.askers.Keys
    && (forall k :: 0 <= k < |s.inbox| ==>
        s.inbox[k].id in s.askers && s.inbox[k].id !in s.computed && s.inbox[k].request == s.asked[s.inbox[k].id])
    && (forall i, j :: 0 <= i < j < |s.inbox| ==> s.inbox[i].id != s.inbox[j].id)
    && (forall k :: 0 <= k < |s.outbox| ==>
        s.outbox[k].id in s.askers && s.outbox[k].id in s.computed
        && s.computed[s.outbox[k].id].response == s.outbox[k].response)
    && (forall id :: id in s.computed ==> id in s.askers && s.computed[id].request == s.asked[id])
  }

  ghost predicate ToldOk(s: Sys) {
    && (forall i, j :: 0 <= i < j < |s.told| ==> s.told[i].caller != s.told[j].caller)
    && (forall k :: 0 <= k < |s.told| ==>
        s.told[k].caller in s.askers.Values && (s.told[k].answer.Reply? ==>
        Own(s, s.told[k].caller, s.told[k].answer.response)))
  }

  lemma CallIds(s: Sys, c: Caller, request: Request)
    requires IdsOk(s) && s.server.Server?
    requires (forall id :: id in s.server.pending ==> id in s.askers)
    ensures var s' := s.(inbox := s.inbox + [Frame(s.server.nextId, request)], askers := s.askers[s.server.nextId := c],
                         asked := s.asked[s.server.nextId := request], server :=
                             s.server.(nextId := s.server.nextId + 1, pending :=
                             s.server.pending[s.server.nextId := c]));
            IdsOk(s')
  {
  }

  /** Telling stays right when one more asks. */
  lemma CallTold(s: Sys, s': Sys, id: nat, c: Caller, request: Request)
    requires ToldOk(s) && id !in s.askers && s'.told == s.told && s'.computed == s.computed
    requires s'.askers == s.askers[id := c] && s'.asked == s.asked[id := request]
    ensures ToldOk(s')
  {
    forall k | 0 <= k < |s'.told| ensures s'.told[k].caller in s'.askers.Values
        && (s'.told[k].answer.Reply? ==> Own(s', s'.told[k].caller, s'.told[k].answer.response)) {
      assert s.told[k].caller in s.askers.Values;
      var i :| i in s.askers && s.askers[i] == s.told[k].caller;
      assert i in s'.askers && s'.askers[i] == s.told[k].caller;
      if s.told[k].answer.Reply? {
        OwnLater(s, s', id, c, request, s.told[k].caller, s.told[k].answer.response);
      }
    }
  }

  lemma OwnLater(s: Sys, s': Sys, id: nat, c: Caller, request: Request, d: Caller, r: Response)
    requires id !in s.askers && s'.askers == s.askers[id := c] && s'.asked == s.asked[id := request]
    requires s'.computed == s.computed && Own(s, d, r)
    ensures Own(s', d, r)
  {
    var j :| j in s.askers && s.askers[j] == d && j in s.computed && j in s.asked
        && s.computed[j] == Worked(s.asked[j], r);
    assert j in s'.askers && s'.askers[j] == d;
  }

  lemma FreshId(s: Sys)
    requires Inv(s) && s.server.Server?
    ensures s.server.nextId !in s.askers
    ensures forall id :: id in s.server.pending ==> id in s.askers
  {
    hide ToldOk, Answered;
    forall id | id in s.server.pending ensures id in s.askers {
      assert Waits(s, id);
    }
  }

  lemma NotYetTold(s: Sys, c: Caller)
    requires ToldOk(s) && c !in s.askers.Values
    ensures !Answered(s, c)
  {
  }

  lemma CallKeeps(s: Sys, c: Caller, request: Request)
    requires Inv(s) && Enabled(s, Call(c, request))
    ensures Inv(Next(s, Call(c, request)))
  {
    hide IdsOk, ToldOk, Own, FailsAll;
    var s' := Next(s, Call(c, request));
    var id := s.server.nextId;
    FreshId(s);
    CallIds(s, c, request);
    CallTold(s, s', id, c, request);
    NotYetTold(s, c);
    hide Answered;
    forall i | i in s.askers ensures s.askers[i] != c {
      assert s.askers[i] in s.askers.Values;
    }
    SameTold(s, s');
    forall i | i in s'.askers ensures Waits(s', i) <==> !Answered(s', s'.askers[i]) {
      if i != id { assert Waits(s', i) <==> Waits(s, i); }
    }
  }

  lemma SameTold(s: Sys, s': Sys)
    requires s'.told == s.told
    ensures forall c :: Answered(s', c) <==> Answered(s, c)
  {
  }

  lemma WorkIds(s: Sys, response: Response)
    requires IdsOk(s) && s.inbox != []
    ensures IdsOk(Next(s, Work(response))) && s.inbox[0].id !in s.computed
  {
    var s', id := Next(s, Work(response)), s.inbox[0].id;
    forall k | 0 <= k < |s'.inbox| ensures s'.inbox[k].id in s.askers && s'.inbox[k].id !in s'.computed
        && s'.inbox[k].request == s.asked[s'.inbox[k].id] {
      assert s'.inbox[k] == s.inbox[k + 1];
    }
    forall k | 0 <= k < |s'.outbox| ensures s'.outbox[k].id in s.askers && s'.outbox[k].id in s'.computed
        && s'.computed[s'.outbox[k].id].response == s'.outbox[k].response {
      if k < |s.outbox| { assert s'.outbox[k] == s.outbox[k]; }
    }
  }

  /** Telling stays right when more is computed. */
  lemma ToldLater(s: Sys, s': Sys)
    requires ToldOk(s) && s'.told == s.told && s'.askers == s.askers && s'.asked == s.asked
        && forall id :: id in s.computed ==> id in s'.computed && s'.computed[id] == s.computed[id]
    ensures ToldOk(s')
  {
    forall k | 0 <= k < |s'.told| ensures s'.told[k].answer.Reply? ==>
        Own(s', s'.told[k].caller, s'.told[k].answer.response) {
      if s.told[k].answer.Reply? {
        assert Own(s, s.told[k].caller, s.told[k].answer.response);
        var j :| j in s.askers && s.askers[j] == s.told[k].caller && j in s.computed && j in s.asked
            && s.computed[j] == Worked(s.asked[j], s.told[k].answer.response);
        assert j in s'.computed && s'.computed[j] == s.computed[j];
      }
    }
  }

  lemma WorkKeeps(s: Sys, response: Response)
    requires Inv(s) && s.inbox != []
    ensures Inv(Next(s, Work(response)))
  {
    hide IdsOk, ToldOk;
    var s' := Next(s, Work(response));
    WorkIds(s, response);
    ToldLater(s, s');
    forall i | i in s'.askers ensures Waits(s', i) <==> !Answered(s', s'.askers[i]) {
      assert Answered(s', s.askers[i]) <==> Answered(s, s.askers[i]);
      assert Waits(s', i) <==> Waits(s, i);
    }
  }

  /** Telling stays right when one more caller is told. */
  lemma TellTold(s: Sys, s': Sys, c: Caller, answer: Answer)
    requires ToldOk(s) && c in s.askers.Values && !Answered(s, c) && s'.told == s.told + [Told(c, answer)]
    requires s'.askers == s.askers && s'.asked == s.asked && s'.computed == s.computed
    requires answer.Reply? ==> Own(s, c, answer.response)
    ensures ToldOk(s')
  {
    forall d, r ensures Own(s', d, r) <==> Own(s, d, r) {
    }
    hide Own;
    forall k | 0 <= k < |s'.told| ensures s'.told[k].caller in s'.askers.Values
        && (s'.told[k].answer.Reply? ==> Own(s', s'.told[k].caller, s'.told[k].answer.response)) {
      if k < |s.told| {
        assert s'.told[k] == s.told[k];
      }
    }
    forall i, j | 0 <= i < j < |s'.told| ensures s'.told[i].caller != s'.told[j].caller {
      if j == |s.told| {
        assert s'.told[i] == s.told[i];
      }
    }
  }

  /** One caller is told: it leaves `pending`. */
  lemma TellKeeps(s: Sys, s': Sys, id: nat, answer: Answer)
    requires Inv(s) && Waits(s, id) && s'.server == s.server.(pending := s.server.pending - {id})
    requires s'.told == s.told + [Told(s.server.pending[id], answer)]
    requires s'.askers == s.askers && s'.asked == s.asked && s'.computed == s.computed && s'.inbox == s.inbox
    requires IdsOk(s')
    requires answer.Reply? ==> Own(s, s.server.pending[id], answer.response)
    ensures Inv(s')
  {
    hide IdsOk, ToldOk, Own;
    var c := s.askers[id];
    assert c in s.askers.Values && !Answered(s, c);
    TellTold(s, s', c, answer);
    forall i | i in s'.askers ensures Waits(s', i) <==> !Answered(s', s'.askers[i]) {
      assert Waits(s', i) <==> Waits(s, i) && i != id;
      if Answered(s, s.askers[i]) {
        var k :| 0 <= k < |s.told| && s.told[k].caller == s.askers[i];
        assert s'.told[k].caller == s.askers[i];
      }
      if i == id {
        assert s'.told[|s.told|].caller == c;
      }
    }
  }

  lemma ArriveKeeps(s: Sys)
    requires Inv(s) && Enabled(s, Arrive)
    ensures Inv(Next(s, Arrive))
  {
    var s', id, r := Next(s, Arrive), s.outbox[0].id, s.outbox[0].response;
    if id in s.server.pending {
      assert Own(s, s.server.pending[id], r);
      TellKeeps(s, s', id, Reply(r));
    } else {
      assert s.told + [] == s.told;
      Untold(s, s');
    }
  }

  lemma FireKeeps(s: Sys, id: nat)
    requires Inv(s) && Enabled(s, Fire(id))
    ensures Inv(Next(s, Fire(id)))
  {
    var s' := Next(s, Fire(id));
    if id in s.server.pending {
      TellKeeps(s, s', id, TimedOut);
    } else {
      assert s.told + [] == s.told;
      Untold(s, s');
    }
  }

  lemma Untold(s: Sys, s': Sys)
    requires Inv(s) && s'.server == s.server && s'.told == s.told && s'.askers == s.askers && s'.asked == s.asked
    requires s'.computed == s.computed && IdsOk(s')
    ensures Inv(s')
  {
    forall i | i in s'.askers ensures Waits(s', i) <==> !Answered(s', s'.askers[i]) {
      assert Answered(s', s.askers[i]) <==> Answered(s, s.askers[i]);
      assert Waits(s', i) <==> Waits(s, i);
    }
    forall k | 0 <= k < |s'.told| ensures s'.told[k].answer.Reply? ==>
        Own(s', s'.told[k].caller, s'.told[k].answer.response) {
      if s.told[k].answer.Reply? { assert Own(s, s.told[k].caller, s.told[k].answer.response); }
    }
  }

  lemma StoppedIds(s: Sys, s': Sys)
    requires IdsOk(s) && s'.server == Stopped && s'.askers == s.askers && s'.asked == s.asked
    requires s'.computed == s.computed && s'.inbox == s.inbox && s'.outbox == s.outbox
    ensures IdsOk(s')
  {
  }

  lemma StoppedTold(s: Sys, answers: seq<Told>, answer: Answer)
    requires Inv(s) && s.server.Server? && FailsAll(s.server, answer, answers) && !answer.Reply?
    ensures ToldOk(s.(server := Stopped, told := s.told + answers))
  {
    hide IdsOk;
    var s' := s.(server := Stopped, told := s.told + answers);
    forall k | 0 <= k < |answers| ensures answers[k].caller in s.askers.Values && !Answered(s, answers[k].caller) {
      assert answers[k].caller in s.server.pending.Values;
      var id :| id in s.server.pending && s.server.pending[id] == answers[k].caller;
      assert Waits(s, id);
    }
    forall k | 0 <= k < |s'.told| ensures s'.told[k].caller in s'.askers.Values
        && (s'.told[k].answer.Reply? ==> Own(s', s'.told[k].caller, s'.told[k].answer.response)) {
      if k < |s.told| {
        assert s.told[k].caller in s.askers.Values;
        if s.told[k].answer.Reply? { assert Own(s, s.told[k].caller, s.told[k].answer.response); }
      } else {
        assert s'.told[k] == answers[k - |s.told|];
      }
    }
    forall i, j | 0 <= i < j < |s'.told| ensures s'.told[i].caller != s'.told[j].caller {
      if i < |s.told| <= j {
        assert s'.told[j] == answers[j - |s.told|];
        assert s.told[i].caller == s'.told[i].caller;
      } else if i >= |s.told| {
        assert s'.told[i] == answers[i - |s.told|] && s'.told[j] == answers[j - |s.told|];
      }
    }
  }

  /** The server stops: everyone who waited is told, so nobody waits. */
  lemma StopKeeps(s: Sys, answers: seq<Told>, answer: Answer)
    requires Inv(s) && s.server.Server? && FailsAll(s.server, answer, answers) && !answer.Reply?
    ensures Inv(s.(server := Stopped, told := s.told + answers))
  {
    hide IdsOk, ToldOk;
    var s' := s.(server := Stopped, told := s.told + answers);
    StoppedIds(s, s');
    StoppedTold(s, answers, answer);
    forall i | i in s'.askers ensures Answered(s', s'.askers[i]) {
      if Answered(s, s.askers[i]) {
        var k :| 0 <= k < |s.told| && s.told[k].caller == s.askers[i];
        assert s'.told[k].caller == s.askers[i];
      } else {
        assert Waits(s, i) && s.server.pending[i] in s.server.pending.Values;
        var k :| 0 <= k < |answers| && answers[k].caller == s.askers[i];
        assert s'.told[|s.told| + k].caller == s.askers[i];
      }
    }
  }

  lemma StepKeeps(s: Sys, e: Event)
    requires Inv(s) && Enabled(s, e)
    ensures Inv(Next(s, e))
  {
    hide Inv, FailsAll;
    match e
    case Call(c, request) => CallKeeps(s, c, request);
    case Work(response) => WorkKeeps(s, response);
    case Arrive => ArriveKeeps(s);
    case Fire(id) => FireKeeps(s, id);
    case BadFrame(answers) => StopKeeps(s, answers, ProtocolFault);
    case Exit(answers) => StopKeeps(s, answers, Crashed);
  }

  lemma {:induction false} Exchange(events: seq<Event>)
    requires Valid(events)
    ensures Inv(Run(events))
    decreases |events|
  {
    if events != [] {
      Exchange(events[..|events| - 1]);
      StepKeeps(Run(events[..|events| - 1]), events[|events| - 1]);
    }
  }

  /** Over every run: a caller is told at most once, and only the response the worker computed for its
      own request, or an error; who waits is exactly who was not told; after the server stops, nobody
      waits. */
  lemma AnsweredOnce(events: seq<Event>)
    requires Valid(events)
    ensures var s := Run(events);
            && (forall i, j :: 0 <= i < j < |s.told| ==> s.told[i].caller != s.told[j].caller)
            && (forall k :: 0 <= k < |s.told| && s.told[k].answer.Reply? ==>
                Own(s, s.told[k].caller, s.told[k].answer.response))
            && (forall id :: id in s.askers ==> (Waits(s, id) <==> !Answered(s, s.askers[id])))
            && (s.server.Stopped? ==> forall id :: id in s.askers ==> Answered(s, s.askers[id]))
  {
    Exchange(events);
  }

  // -- what each caller is told, and when -----------------------------------------------------

  /** What an event settles for a request that is still open: its response arrives, its timer fires, the
      worker sends a frame that cannot be read, or the worker exits. */
  ghost function Settles(s: Sys, e: Event, id: nat): Option<Answer>
    requires Enabled(s, e)
  {
    match e
    case Arrive =>
      if s.outbox[0].id == id && id in s.computed then Some(Reply(s.computed[id].response)) else None
    case Fire(i) => if i == id then Some(TimedOut) else None
    case BadFrame(_) => Some(ProtocolFault)
    case Exit(_) => Some(Crashed)
    case _ => None
  }

  /** The first thing that settles a request after it was asked. */
  ghost function Verdict(events: seq<Event>, id: nat): Option<Answer>
    requires Valid(events)
    decreases |events|
  {
    if events == [] || id !in Run(events[..|events| - 1]).askers then None
    else
      var before := Verdict(events[..|events| - 1], id);
      if before.Some? then before else Settles(Run(events[..|events| - 1]), events[|events| - 1], id)
  }

  lemma WaitingAsker(s: Sys, id: nat)
    requires Inv(s) && s.server.Server? && id in s.server.pending
    ensures id in s.askers && s.server.pending[id] == s.askers[id]
  {
    assert Waits(s, id);
  }

  /** A step tells a caller what it settles for its request, if that is still open, and else nothing. */
  lemma StepTells(s: Sys, e: Event, id: nat, a: Answer)
    requires Inv(s) && Enabled(s, e) && id in s.askers
    ensures Told(s.askers[id], a) in Next(s, e).told <==>
        Told(s.askers[id], a) in s.told || (Waits(s, id) && Settles(s, e, id) == Some(a))
  {
    var one := Told(s.askers[id], a);
    match e
    case Call(_, _) =>
    case Work(_) =>
    case Arrive =>
      if s.outbox[0].id in s.server.pending {
        WaitingAsker(s, s.outbox[0].id);
      }
      hide ToldOk, Answered;
    case Fire(i) =>
      if i in s.server.pending {
        WaitingAsker(s, i);
      }
      hide ToldOk, Answered, IdsOk;
    case BadFrame(answers) => StopTells(s, id, ProtocolFault, answers, a);
    case Exit(answers) => StopTells(s, id, Crashed, answers, a);
  }

  lemma StopTells(s: Sys, id: nat, answer: Answer, answers: seq<Told>, a: Answer)
    requires Inv(s) && s.server.Server? && FailsAll(s.server, answer, answers) && id in s.askers
    ensures Told(s.askers[id], a) in answers <==> Waits(s, id) && a == answer
  {
    hide IdsOk, ToldOk, Answered;
    var c := s.askers[id];
    if Told(c, a) in answers {
      var k :| 0 <= k < |answers| && answers[k] == Told(c, a);
      assert answers[k].caller in s.server.pending.Values;
      var i :| i in s.server.pending && s.server.pending[i] == c;
      WaitingAsker(s, i);
      assert i == id;
    }
    if Waits(s, id) {
      WaitingAsker(s, id);
      assert c in s.server.pending.Values;
      var k :| 0 <= k < |answers| && answers[k].caller == c;
      assert answers[k] == Told(c, answer);
    }
  }

  lemma {:induction false} ToldVerdict(events: seq<Event>, id: nat)
    requires Valid(events) && id in Run(events).askers
    ensures forall a :: Told(Run(events).askers[id], a) in Run(events).told <==> Verdict(events, id) == Some(a)
    decreases |events|
  {
    hide Inv, FailsAll, Settles;
    var before, e := events[..|events| - 1], events[|events| - 1];
    var s := Run(before);
    Exchange(before);
    if id in s.askers {
      ToldVerdict(before, id);
      StillOpen(before, id);
      KeepsAskers(s, e, id);
      forall a ensures Told(s.askers[id], a) in Run(events).told <==> Verdict(events, id) == Some(a) {
        StepTells(s, e, id, a);
        hide Next;
      }
    } else {
      forall a ensures Told(Run(events).askers[id], a) !in Run(events).told {
        NewAsker(s, e, id, a);
      }
    }
  }

  /** Over every run: a caller is told an answer if and only if that is the first thing that settled its
      request.  So the response, if it arrives first; that it timed out only if its timer fired first;
      and an error of the worker only if the worker failed while it waited. */
  lemma ToldExactly(events: seq<Event>, id: nat, a: Answer)
    requires Valid(events) && id in Run(events).askers
    ensures Told(Run(events).askers[id], a) in Run(events).told <==> Verdict(events, id) == Some(a)
  {
    ToldVerdict(events, id);
  }

  lemma KeepsAskers(s: Sys, e: Event, id: nat)
    requires Inv(s) && Enabled(s, e) && id in s.askers
    ensures id in Next(s, e).askers && Next(s, e).askers[id] == s.askers[id]
  {
    if e.Call? {
      FreshId(s);
    }
  }

  lemma NewAsker(s: Sys, e: Event, id: nat, a: Answer)
    requires Inv(s) && Enabled(s, e) && id !in s.askers && id in Next(s, e).askers
    ensures Told(Next(s, e).askers[id], a) !in Next(s, e).told
  {
    assert e.Call?;
    hide IdsOk, Answered;
  }

  /** A request is open exactly as long as nothing has settled it. */
  lemma StillOpen(events: seq<Event>, id: nat)
    requires Valid(events) && id in Run(events).askers
    requires forall a :: Told(Run(events).askers[id], a) in Run(events).told <==> Verdict(events, id) == Some(a)
    ensures Waits(Run(events), id) <==> Verdict(events, id).None?
  {
    Exchange(events);
    hide IdsOk, ToldOk, Verdict;
    var s := Run(events);
    var c := s.askers[id];
    if Answered(s, c) {
      var k :| 0 <= k < |s.told| && s.told[k].caller == c;
      assert s.told[k] == Told(c, s.told[k].answer);
      assert Verdict(events, id) == Some(s.told[k].answer);
    }
    if Verdict(events, id).Some? {
      var one := Told(c, Verdict(events, id).value);
      assert one in s.told && one.caller == c;
      assert Answered(s, c);
    }
  }

  /** A request on its way to the worker, or its response on its way back. */
  ghost predicate InTransit(s: Sys, id: nat) {
    || (exists k :: 0 <= k < |s.inbox| && s.inbox[k].id == id)
    || exists k :: 0 <= k < |s.outbox| && s.outbox[k].id == id
  }

  lemma StepTransit(s: Sys, e: Event, id: nat)
    requires Enabled(s, e) && Waits(Next(s, e), id) && (Waits(s, id) ==> InTransit(s, id))
    ensures InTransit(Next(s, e), id)
  {
    hide FailsAll;
    var s' := Next(s, e);
    match e
    case Call(c, request) =>
      assert s'.inbox[|s.inbox|] == Frame(s.server.nextId, request);
      if id != s.server.nextId {
        if k :| 0 <= k < |s.inbox| && s.inbox[k].id == id { assert s'.inbox[k].id == id; }
      }
    case Work(response) =>
      if k :| 0 <= k < |s.inbox| && s.inbox[k].id == id {
        if k > 0 { assert s'.inbox[k - 1].id == id; } else { assert s'.outbox[|s.outbox|].id == id; }
      } else {
        var k :| 0 <= k < |s.outbox| && s.outbox[k].id == id;
        assert s'.outbox[k].id == id;
      }
    case Arrive =>
      if k :| 0 <= k < |s.inbox| && s.inbox[k].id == id {
        assert s'.inbox[k].id == id;
      } else {
        var k :| 0 <= k < |s.outbox| && s.outbox[k].id == id;
        assert k > 0;
        assert s'.outbox[k - 1].id == id;
      }
    case _ =>
  }

  /** No request is lost: whoever waits has a request or a response under way, so when nothing is under
      way any more, everybody who asked has been told. */
  lemma {:induction false} NothingLost(events: seq<Event>)
    requires Valid(events)
    ensures var s := Run(events);
            && (forall id :: Waits(s, id) ==> InTransit(s, id))
            && (s.inbox == [] && s.outbox == [] ==> forall id :: id in s.askers ==> Answered(s, s.askers[id]))
    decreases |events|
  {
    Exchange(events);
    if events != [] {
      var before, e := events[..|events| - 1], events[|events| - 1];
      NothingLost(before);
      hide Next, Inv, Enabled;
      forall id | Waits(Run(events), id) ensures InTransit(Run(events), id) {
        assert Run(events) == Next(Run(before), e);
        StepTransit(Run(before), e, id);
      }
    }
    assert Inv(Run(events));
    InvAnswers(Run(events));
  }

  lemma InvAnswers(s: Sys)
    requires Inv(s)
    ensures forall id :: id in s.askers && !Answered(s, s.askers[id]) ==> Waits(s, id)
  {
  }
}
