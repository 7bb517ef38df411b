/** Who owns a worker's buffers.  References are dropped by the garbage collector or taken explicitly,
    releases pass through a native queue and the reaper, and workers restart with a new generation
    and ids from 1 again.  A step system over all of it. */
module Lifecycle {

  /** A buffer as a reference names it. */
  datatype Tag = Tag(worker: nat, gen: nat, handle: nat)

  /** A reference: released by `take` or by the collector, or not yet; and gone, or not yet. */
  datatype Ref = Ref(tag: Tag, released: bool, gone: bool)

  /** A worker process: its generation, its resident buffers, and its next id. */
  datatype Proc = Proc(gen: nat, resident: set<nat>, next: nat)

  /** `creating`: made in a worker, and the caller has not built a reference yet.  `claimed`: taken by
      a deallocating caller.  `drained`: in the reaper's hands.  `sent` and `uses`: in the mailbox of
      a worker process.  `orphans`: the caller timed out. */
  datatype State = State(
    counter: nat,
    workers: map<nat, Proc>,
    refs: seq<Ref>,
    queue: seq<Tag>,
    claimed: seq<Tag>,
    drained: seq<Tag>,
    sent: seq<Tag>,
    uses: seq<Tag>,
    creating: seq<Tag>,
    orphans: seq<Tag>)

  const INIT := State(0, map[], [], [], [], [], [], [], [], [])

  datatype Event =
    | Start(w: nat)
    | Crash(w: nat)
    | Create(w: nat)
    | Build(i: nat)
    | GiveUp(i: nat)
    | Drop(r: nat)
    | Take(r: nat)
    | Deallocate(i: nat)
    | Drain
    | Reap(w: nat)
    | Receive(i: nat)
    | Use(r: nat)
    | Lookup(i: nat)

  // -- the pieces ------------------------------------------------------------------------

  /** Atomically claim a reference: its tag the first time, nothing afterwards. */
  function Claim(r: Ref): (Ref, seq<Tag>) {
    (r.(released := true), if r.released then [] else [r.tag])
  }

  function Without(ts: seq<Tag>, i: nat): seq<Tag>
    requires i < |ts|
  {
    ts[..i] + ts[i + 1..]
  }

  /** The entries of one worker, and those of the others. */
  function OfWorker(ts: seq<Tag>, w: nat): seq<Tag> {
    if ts == [] then []
    else OfWorker(ts[..|ts| - 1], w) + if ts[|ts| - 1].worker == w then [ts[|ts| - 1]] else []
  }

  function NotOfWorker(ts: seq<Tag>, w: nat): seq<Tag> {
    if ts == [] then []
    else NotOfWorker(ts[..|ts| - 1], w) + if ts[|ts| - 1].worker == w then [] else [ts[|ts| - 1]]
  }

  /** The generation filter: a release of an earlier generation is discarded, its buffer is gone. */
  function OfGeneration(ts: seq<Tag>, gen: nat): seq<Tag> {
    if ts == [] then []
    else OfGeneration(ts[..|ts| - 1], gen) + if ts[|ts| - 1].gen == gen then [ts[|ts| - 1]] else []
  }

  predicate IsCurrent(s: State, t: Tag) {
    t.worker in s.workers && s.workers[t.worker].gen == t.gen
  }

  // -- the steps ---------------------------------------------------------------------------

  predicate Enabled(s: State, e: Event) {
    match e
    case Start(w) => w !in s.workers
    case Crash(w) => w in s.workers
    case Create(w) => w in s.workers
    case Build(i) => i < |s.creating|
    case GiveUp(i) => i < |s.creating|
    case Drop(r) => r < |s.refs| && !s.refs[r].gone
    case Take(r) => r < |s.refs| && !s.refs[r].gone
    case Deallocate(i) => i < |s.claimed|
    case Drain => true
    case Reap(w) => true
    case Receive(i) => i < |s.sent|
    case Use(r) => r < |s.refs| && !s.refs[r].gone
    case Lookup(i) => i < |s.uses|
  }

  /** One step.  The three steps that read the generation and then send, or tag, do both at once. */
  function Next(s: State, e: Event): State
    requires Enabled(s, e)
  {
    match e
    case Start(w) => s.(counter := s.counter + 1, workers := s.workers[w := Proc(s.counter + 1, {}, 1)])
    case Crash(w) => s.(workers := s.workers - {w}, sent := NotOfWorker(s.sent, w), uses := NotOfWorker(s.uses, w))
    case Create(w) =>
      var p := s.workers[w];
      s.(workers := s.workers[w := Proc(p.gen, p.resident + {p.next}, p.next + 1)], creating :=
          s.creating + [Tag(w, p.gen, p.next)])
    case Build(i) => s.(refs := s.refs + [Ref(s.creating[i], false, false)], creating := Without(s.creating, i))
    case GiveUp(i) => s.(orphans := s.orphans + [s.creating[i]], creating := Without(s.creating, i))
    case Drop(r) =>
      var (ref, tags) := Claim(s.refs[r]);
      s.(refs := s.refs[r := ref.(gone := true)], queue := s.queue + tags)
    case Take(r) =>
      var (ref, tags) := Claim(s.refs[r]);
      s.(refs := s.refs[r := ref], claimed := s.claimed + tags)
    case Deallocate(i) =>
      var t := s.claimed[i];
      s.(claimed := Without(s.claimed, i), sent := s.sent + if IsCurrent(s, t) then [t] else [])
    case Drain => s.(queue := [], drained := s.drained + s.queue)
    case Reap(w) =>
      var group := OfWorker(s.drained, w);
      s.(drained := NotOfWorker(s.drained, w),
         sent := s.sent + if w in s.workers then OfGeneration(group, s.workers[w].gen) else [])
    case Receive(i) =>
      var t := s.sent[i];
      var s' := s.(sent := Without(s.sent, i));
      if t.worker in s.workers then
        var p := s.workers[t.worker];
        s'.(workers := s.workers[t.worker := p.(resident := p.resident - {t.handle})])
      else s'
    case Use(r) =>
      var t := s.refs[r].tag;
      s.(uses := s.uses + if IsCurrent(s, t) then [t] else [])
    case Lookup(i) => s.(uses := Without(s.uses, i))
  }

  ghost predicate Valid(events: seq<Event>)
    decreases |events|, 0
  {
    events == [] || (Valid(events[..|events| - 1]) && Enabled(Run(events[..|events| - 1]), events[|events| - 1]))
  }

  ghost function Run(events: seq<Event>): State
    requires Valid(events)
    decreases |events|, 1
  {
    if events == [] then INIT else Next(Run(events[..|events| - 1]), events[|events| - 1])
  }

  // -- the accounts --------------------------------------------------------------------------

  function Times(ts: seq<Tag>, t: Tag): nat {
    if ts == [] then 0 else Times(ts[..|ts| - 1], t) + if ts[|ts| - 1] == t then 1 else 0
  }

  /** How many references still own a buffer. */
  function Owners(refs: seq<Ref>, t: Tag): nat {
    if refs == [] then 0 else Owners(refs[..|refs| - 1], t) + Owns(refs[|refs| - 1], t)
  }

  function Owns(r: Ref, t: Tag): nat {
    if !r.released && r.tag == t then 1 else 0
  }

  /** How often a buffer is accounted for: by everything that can still release it, or lost the
      chance to. */
  function Accounts(s: State, t: Tag): nat {
    Owners(s.refs, t) + Times(s.queue, t) + Times(s.claimed, t) + Times(s.drained, t) + Times(s.sent, t)
        + Times(s.creating, t) + Times(s.orphans, t)
  }

  predicate IsResident(s: State, t: Tag) {
    IsCurrent(s, t) && t.handle in s.workers[t.worker].resident
  }

  /** One buffer's books: nothing of a generation to come; and of a running generation, one account
      for each resident buffer and none for any other. */
  predicate Balanced(s: State, t: Tag) {
    && (t.gen > s.counter ==> Accounts(s, t) == 0)
    && (IsCurrent(s, t) ==> Accounts(s, t) == if IsResident(s, t) then 1 else 0)
    && (Times(s.sent, t) > 0 || Times(s.uses, t) > 0 ==> IsCurrent(s, t))
  }

  ghost predicate Inv(s: State) {
    && ProcsOk(s)
    && forall t :: Balanced(s, t)
  }

  ghost predicate ProcsOk(s: State) {
    && (forall w :: w in s.workers ==> ProcOk(s, w))
    && (forall v, w :: v in s.workers && w in s.workers && v != w ==> s.workers[v].gen != s.workers[w].gen)
  }

  predicate ProcOk(s: State, w: nat)
    requires w in s.workers
  {
    s.workers[w].gen <= s.counter && forall h :: h in s.workers[w].resident ==> h < s.workers[w].next
  }

  // -- counting --------------------------------------------------------------------------------

  lemma {:induction false} TimesConcat(a: seq<Tag>, b: seq<Tag>, t: Tag)
    ensures Times(a + b, t) == Times(a, t) + Times(b, t)
    decreases |b|
  {
    if b == [] {
      assert a + b == a;
    } else {
      assert (a + b)[..|a + b| - 1] == a + b[..|b| - 1];
      TimesConcat(a, b[..|b| - 1], t);
    }
  }

  lemma TimesOne(u: Tag, t: Tag)
    ensures Times([u], t) == if u == t then 1 else 0
  {
    assert [u][..0] == [];
  }

  lemma {:induction false} TimesIn(ts: seq<Tag>, i: nat)
    requires i < |ts|
    ensures Times(ts, ts[i]) > 0
  {
    if i < |ts| - 1 {
      TimesIn(ts[..|ts| - 1], i);
    }
  }

  lemma TimesWithout(ts: seq<Tag>, i: nat, t: Tag)
    requires i < |ts|
    ensures Times(ts, t) == Times(Without(ts, i), t) + if ts[i] == t then 1 else 0
  {
    assert ts == ts[..i] + ([ts[i]] + ts[i + 1..]);
    TimesConcat(ts[..i], [ts[i]] + ts[i + 1..], t);
    TimesConcat([ts[i]], ts[i + 1..], t);
    TimesConcat(ts[..i], ts[i + 1..], t);
    TimesOne(ts[i], t);
  }

  lemma {:induction false} TimesOfWorker(ts: seq<Tag>, w: nat, t: Tag)
    ensures Times(OfWorker(ts, w), t) == if t.worker == w then Times(ts, t) else 0
    ensures Times(NotOfWorker(ts, w), t) == if t.worker == w then 0 else Times(ts, t)
  {
    if ts != [] {
      var init, last := ts[..|ts| - 1], ts[|ts| - 1];
      TimesOfWorker(init, w, t);
      TimesConcat(OfWorker(init, w), if last.worker == w then [last] else [], t);
      TimesConcat(NotOfWorker(init, w), if last.worker == w then [] else [last], t);
      TimesOne(last, t);
    }
  }

  lemma {:induction false} TimesOfGeneration(ts: seq<Tag>, gen: nat, t: Tag)
    ensures Times(OfGeneration(ts, gen), t) == if t.gen == gen then Times(ts, t) else 0
  {
    if ts != [] {
      var init, last := ts[..|ts| - 1], ts[|ts| - 1];
      TimesOfGeneration(init, gen, t);
      TimesConcat(OfGeneration(init, gen), if last.gen == gen then [last] else [], t);
      TimesOne(last, t);
    }
  }

  lemma {:induction false} OwnersUpdate(refs: seq<Ref>, r: nat, ref: Ref, t: Tag)
    requires r < |refs|
    ensures Owners(refs[r := ref], t) + Owns(refs[r], t) == Owners(refs, t) + Owns(ref, t)
  {
    var init, refs' := refs[..|refs| - 1], refs[r := ref];
    if r < |refs| - 1 {
      assert refs'[..|refs| - 1] == init[r := ref];
      OwnersUpdate(init, r, ref, t);
    } else {
      assert refs'[..|refs| - 1] == init;
    }
  }

  lemma OwnersAppend(refs: seq<Ref>, ref: Ref, t: Tag)
    ensures Owners(refs + [ref], t) == Owners(refs, t) + Owns(ref, t)
  {
    assert (refs + [ref])[..|refs|] == refs;
  }

  // -- every step keeps the books ------------------------------------------------------------------

  /** What a step does to one buffer's account. */
  lemma StartBalance(s: State, w: nat, t: Tag)
    requires Balanced(s, t) && ProcsOk(s) && w !in s.workers
    ensures Balanced(Next(s, Start(w)), t)
  {
  }

  lemma CrashBalance(s: State, w: nat, t: Tag)
    requires Balanced(s, t) && w in s.workers
    ensures Balanced(Next(s, Crash(w)), t)
  {
    TimesOfWorker(s.sent, w, t);
    TimesOfWorker(s.uses, w, t);
  }

  lemma CreateBalance(s: State, w: nat, t: Tag)
    requires Balanced(s, t) && ProcsOk(s) && w in s.workers
    ensures Balanced(Next(s, Create(w)), t)
  {
    hide Times, Owners;
    var made := Tag(w, s.workers[w].gen, s.workers[w].next);
    assert ProcOk(s, w);
    TimesConcat(s.creating, [made], t);
    TimesOne(made, t);
  }

  lemma BuildBalance(s: State, i: nat, t: Tag)
    requires Balanced(s, t) && i < |s.creating|
    ensures Balanced(Next(s, Build(i)), t) && Balanced(Next(s, GiveUp(i)), t)
  {
    hide Times, Owners, Without;
    TimesWithout(s.creating, i, t);
    OwnersAppend(s.refs, Ref(s.creating[i], false, false), t);
    TimesConcat(s.orphans, [s.creating[i]], t);
    TimesOne(s.creating[i], t);
  }

  lemma ClaimTimes(r: Ref, t: Tag)
    ensures Times(Claim(r).1, t) == Owns(r, t) && Owns(Claim(r).0, t) == 0 && Owns(Claim(r).0.(gone := true), t) == 0
  {
    TimesOne(r.tag, t);
  }

  lemma DropBalance(s: State, r: nat, t: Tag)
    requires Balanced(s, t) && r < |s.refs| && !s.refs[r].gone
    ensures Balanced(Next(s, Drop(r)), t)
  {
    hide Times, Owners, Owns, Claim;
    var (ref, tags) := Claim(s.refs[r]);
    ClaimTimes(s.refs[r], t);
    OwnersUpdate(s.refs, r, ref.(gone := true), t);
    TimesConcat(s.queue, tags, t);
  }

  lemma TakeBalance(s: State, r: nat, t: Tag)
    requires Balanced(s, t) && r < |s.refs| && !s.refs[r].gone
    ensures Balanced(Next(s, Take(r)), t)
  {
    hide Times, Owners, Owns, Claim;
    var (ref, tags) := Claim(s.refs[r]);
    ClaimTimes(s.refs[r], t);
    OwnersUpdate(s.refs, r, ref, t);
    TimesConcat(s.claimed, tags, t);
  }

  lemma DeallocateBalance(s: State, i: nat, t: Tag)
    requires Balanced(s, t) && i < |s.claimed|
    ensures Balanced(Next(s, Deallocate(i)), t)
  {
    TimesWithout(s.claimed, i, t);
    TimesConcat(s.sent, if IsCurrent(s, s.claimed[i]) then [s.claimed[i]] else [], t);
    TimesOne(s.claimed[i], t);
  }

  lemma DrainBalance(s: State, t: Tag)
    requires Balanced(s, t)
    ensures Balanced(Next(s, Drain), t)
  {
    TimesConcat(s.drained, s.queue, t);
  }

  lemma ReapBalance(s: State, w: nat, t: Tag)
    requires Balanced(s, t)
    ensures Balanced(Next(s, Reap(w)), t)
  {
    var group := OfWorker(s.drained, w);
    TimesOfWorker(s.drained, w, t);
    if w in s.workers {
      TimesOfGeneration(group, s.workers[w].gen, t);
      TimesConcat(s.sent, OfGeneration(group, s.workers[w].gen), t);
    } else {
      TimesConcat(s.sent, [], t);
    }
  }

  lemma ReceiveBalance(s: State, i: nat, t: Tag)
    requires Balanced(s, t) && i < |s.sent| && Balanced(s, s.sent[i])
    ensures Balanced(Next(s, Receive(i)), t)
  {
    TimesWithout(s.sent, i, t);
    TimesIn(s.sent, i);
  }

  lemma UseBalance(s: State, r: nat, t: Tag)
    requires Balanced(s, t) && r < |s.refs| && !s.refs[r].gone
    ensures Balanced(Next(s, Use(r)), t)
  {
    TimesConcat(s.uses, if IsCurrent(s, s.refs[r].tag) then [s.refs[r].tag] else [], t);
    TimesOne(s.refs[r].tag, t);
  }

  lemma LookupBalance(s: State, i: nat, t: Tag)
    requires Balanced(s, t) && i < |s.uses|
    ensures Balanced(Next(s, Lookup(i)), t)
  {
    TimesWithout(s.uses, i, t);
  }

  lemma StepProcs(s: State, e: Event)
    requires Inv(s) && Enabled(s, e)
    ensures ProcsOk(Next(s, e))
  {
    hide Balanced;
    var s' := Next(s, e);
    forall w | w in s'.workers ensures ProcOk(s', w) {
      if w in s.workers { assert ProcOk(s, w); }
    }
  }

  lemma StepKeeps(s: State, e: Event)
    requires Inv(s) && Enabled(s, e)
    ensures Inv(Next(s, e))
  {
    hide Balanced, Next, ProcsOk;
    StepProcs(s, e);
    forall t ensures Balanced(Next(s, e), t) {
      assert Balanced(s, t);
      match e
      case Start(w) => StartBalance(s, w, t);
      case Crash(w) => CrashBalance(s, w, t);
      case Create(w) => CreateBalance(s, w, t);
      case Build(i) => BuildBalance(s, i, t);
      case GiveUp(i) => BuildBalance(s, i, t);
      case Drop(r) => DropBalance(s, r, t);
      case Take(r) => TakeBalance(s, r, t);
      case Deallocate(i) => DeallocateBalance(s, i, t);
      case Drain => DrainBalance(s, t);
      case Reap(w) => ReapBalance(s, w, t);
      case Receive(i) => ReceiveBalance(s, i, t);
      case Use(r) => UseBalance(s, r, t);
      case Lookup(i) => LookupBalance(s, i, t);
    }
  }

  /** In every reachable state, every resident buffer of a running generation is accounted for exactly
      once: by one reference, queue, hand, mailbox, caller or orphan. */
  lemma {:induction false} Conservation(events: seq<Event>)
    requires Valid(events)
    ensures Inv(Run(events))
    decreases |events|
  {
    if events != [] {
      Conservation(events[..|events| - 1]);
      StepKeeps(Run(events[..|events| - 1]), events[|events| - 1]);
    } else {
      forall t ensures Balanced(INIT, t) {
      }
    }
  }

  // -- what the books say ----------------------------------------------------------------------------

  /** A live reference of a running generation always finds its buffer, and no release of that buffer
      is on its way. */
  lemma LiveFinds(events: seq<Event>, r: nat)
    requires Valid(events) && r < |Run(events).refs|
    requires !Run(events).refs[r].released && IsCurrent(Run(events), Run(events).refs[r].tag)
    ensures var s, t := Run(events), Run(events).refs[r].tag;
            && IsResident(s, t)
            && t !in s.queue && t !in s.claimed && t !in s.drained && t !in s.sent
  {
    var s, t := Run(events), Run(events).refs[r].tag;
    Conservation(events);
    assert Balanced(s, t);
    OwnersIn(s.refs, r);
    forall i | 0 <= i < |s.queue| ensures s.queue[i] != t { TimesIn(s.queue, i); }
    forall i | 0 <= i < |s.claimed| ensures s.claimed[i] != t { TimesIn(s.claimed, i); }
    forall i | 0 <= i < |s.drained| ensures s.drained[i] != t { TimesIn(s.drained, i); }
    forall i | 0 <= i < |s.sent| ensures s.sent[i] != t { TimesIn(s.sent, i); }
  }

  lemma {:induction false} OwnersIn(refs: seq<Ref>, r: nat)
    requires r < |refs| && !refs[r].released
    ensures Owners(refs, refs[r].tag) > 0
  {
    if r < |refs| - 1 {
      OwnersIn(refs[..|refs| - 1], r);
    }
  }

  lemma {:induction false} OwnersTwo(refs: seq<Ref>, q: nat, r: nat)
    requires q < r < |refs| && !refs[q].released && !refs[r].released && refs[q].tag == refs[r].tag
    ensures Owners(refs, refs[r].tag) > 1
  {
    if r < |refs| - 1 {
      OwnersTwo(refs[..|refs| - 1], q, r);
    } else {
      OwnersIn(refs[..|refs| - 1], q);
    }
  }

  /** No two live references of a running generation name one buffer, though ids repeat from one
      generation to the next. */
  lemma LiveDistinct(events: seq<Event>, q: nat, r: nat)
    requires Valid(events) && q < r < |Run(events).refs|
    requires var s := Run(events); !s.refs[q].released && !s.refs[r].released && IsCurrent(s, s.refs[r].tag)
    ensures Run(events).refs[q].tag != Run(events).refs[r].tag
  {
    Conservation(events);
    var s := Run(events);
    assert Balanced(s, s.refs[r].tag);
    if s.refs[q].tag == s.refs[r].tag {
      OwnersTwo(s.refs, q, r);
    }
  }

  /** A release or lookup that a worker process handles names a handle of its own generation, and a
      release finds the buffer there: it is never one that a later generation gave the same number. */
  lemma GenerationSafety(events: seq<Event>, i: nat)
    requires Valid(events)
    ensures i < |Run(events).sent| ==> IsResident(Run(events), Run(events).sent[i])
    ensures i < |Run(events).uses| ==> IsCurrent(Run(events), Run(events).uses[i])
  {
    Conservation(events);
    var s := Run(events);
    if i < |s.sent| {
      TimesIn(s.sent, i);
      assert Balanced(s, s.sent[i]);
    }
    if i < |s.uses| {
      TimesIn(s.uses, i);
      assert Balanced(s, s.uses[i]);
    }
  }

  // -- where a buffer is, and how it gets there -----------------------------------------------------

  /** Where a buffer stands: never made; made, with its caller yet to build a reference; owned by a
      reference; its release in the native queue, in the deallocating caller's hands, in the reaper's, or
      in the worker's mailbox; given up on; or freed. */
  datatype Place = Unmade | Fresh | Owned | Queued | Claimed | Drained | Mailed | Abandoned | Freed

  function OneIf(b: bool): nat { if b then 1 else 0 }

  /** A buffer of a running generation is in this place and in no other. */
  predicate At(s: State, t: Tag, p: Place) {
    && IsCurrent(s, t)
    && Times(s.creating, t) == OneIf(p.Fresh?) && Owners(s.refs, t) == OneIf(p.Owned?)
    && Times(s.queue, t) == OneIf(p.Queued?) && Times(s.claimed, t) == OneIf(p.Claimed?)
    && Times(s.drained, t) == OneIf(p.Drained?) && Times(s.sent, t) == OneIf(p.Mailed?)
    && Times(s.orphans, t) == OneIf(p.Abandoned?)
    && (t.handle in s.workers[t.worker].resident <==> !p.Unmade? && !p.Freed?)
    && (p.Unmade? <==> t.handle == 0 || t.handle >= s.workers[t.worker].next)
  }

  /** Where an event takes a buffer: the only ways there are.  Only a caller that gives up loses one. */
  function Moves(s: State, e: Event, p: Place, t: Tag): Place
    requires Enabled(s, e)
  {
    match e
    case Create(w) => if t == Tag(w, s.workers[w].gen, s.workers[w].next) then Fresh else p
    case Build(i) => if s.creating[i] == t then Owned else p
    case GiveUp(i) => if s.creating[i] == t then Abandoned else p
    case Drop(r) => if s.refs[r].tag == t && !s.refs[r].released then Queued else p
    case Take(r) => if s.refs[r].tag == t && !s.refs[r].released then Claimed else p
    case Drain => if p.Queued? then Drained else p
    case Reap(w) => if p.Drained? && t.worker == w then Mailed else p
    case Deallocate(i) => if s.claimed[i] == t then Mailed else p
    case Receive(i) => if s.sent[i] == t then Freed else p
    case _ => p
  }

  /** A buffer's way through a run. */
  ghost function Journey(events: seq<Event>, t: Tag): Place
    requires Valid(events)
    decreases |events|
  {
    if events == [] then Unmade
    else
      var before := events[..|events| - 1];
      Moves(Run(before), events[|events| - 1], Journey(before, t), t)
  }

  lemma CreateMoves(s: State, w: nat, t: Tag, p: Place)
    requires At(s, t, p) && ProcsOk(s) && w in s.workers && s.workers[w].next > 0
    ensures At(Next(s, Create(w)), t, Moves(s, Create(w), p, t))
  {
    hide Times, Owners;
    var made := Tag(w, s.workers[w].gen, s.workers[w].next);
    assert ProcOk(s, w);
    TimesConcat(s.creating, [made], t);
    TimesOne(made, t);
  }

  lemma BuildMoves(s: State, i: nat, t: Tag, p: Place)
    requires At(s, t, p) && i < |s.creating|
    ensures At(Next(s, Build(i)), t, Moves(s, Build(i), p, t)) && At(Next(s, GiveUp(i)), t, Moves(s, GiveUp(i), p, t))
  {
    hide Times, Owners, Without;
    TimesWithout(s.creating, i, t);
    OwnersAppend(s.refs, Ref(s.creating[i], false, false), t);
    TimesConcat(s.orphans, [s.creating[i]], t);
    TimesOne(s.creating[i], t);
  }

  lemma DropMoves(s: State, r: nat, t: Tag, p: Place)
    requires At(s, t, p) && r < |s.refs| && !s.refs[r].gone
    ensures At(Next(s, Drop(r)), t, Moves(s, Drop(r), p, t)) && At(Next(s, Take(r)), t, Moves(s, Take(r), p, t))
  {
    hide Times, Owners, Claim;
    var (ref, tags) := Claim(s.refs[r]);
    ClaimTimes(s.refs[r], t);
    OwnersUpdate(s.refs, r, ref, t);
    OwnersUpdate(s.refs, r, ref.(gone := true), t);
    TimesConcat(s.queue, tags, t);
    TimesConcat(s.claimed, tags, t);
  }

  lemma DeallocateMoves(s: State, i: nat, t: Tag, p: Place)
    requires At(s, t, p) && i < |s.claimed|
    ensures At(Next(s, Deallocate(i)), t, Moves(s, Deallocate(i), p, t))
  {
    hide Times, Owners, Without;
    TimesWithout(s.claimed, i, t);
    TimesConcat(s.sent, [s.claimed[i]], t);
    assert s.sent + [] == s.sent;
    TimesOne(s.claimed[i], t);
  }

  lemma ReapMoves(s: State, w: nat, t: Tag, p: Place)
    requires At(s, t, p)
    ensures At(Next(s, Reap(w)), t, Moves(s, Reap(w), p, t))
  {
    hide Times, Owners, OfWorker, NotOfWorker, OfGeneration;
    var group := OfWorker(s.drained, w);
    TimesOfWorker(s.drained, w, t);
    if w in s.workers {
      TimesOfGeneration(group, s.workers[w].gen, t);
      TimesConcat(s.sent, OfGeneration(group, s.workers[w].gen), t);
    } else {
      assert s.sent + [] == s.sent;
    }
  }

  lemma ReceiveMoves(s: State, i: nat, t: Tag, p: Place)
    requires At(s, t, p) && i < |s.sent| && IsCurrent(s, s.sent[i])
    ensures At(Next(s, Receive(i)), t, Moves(s, Receive(i), p, t))
  {
    hide Times, Owners, Without;
    TimesWithout(s.sent, i, t);
  }

  lemma CrashMoves(s: State, w: nat, t: Tag, p: Place)
    requires At(s, t, p) && w in s.workers && w != t.worker
    ensures At(Next(s, Crash(w)), t, p)
  {
    TimesOfWorker(s.sent, w, t);
  }

  lemma DrainMoves(s: State, t: Tag, p: Place)
    requires At(s, t, p)
    ensures At(Next(s, Drain), t, Moves(s, Drain, p, t))
  {
    TimesConcat(s.drained, s.queue, t);
  }

  lemma StepMoves(s: State, e: Event, t: Tag, p: Place)
    requires Inv(s) && Enabled(s, e) && At(s, t, p) && IsCurrent(Next(s, e), t)
    requires forall w :: w in s.workers ==> s.workers[w].next > 0
    ensures At(Next(s, e), t, Moves(s, e, p, t))
  {
    assert IsCurrent(s, t);
    hide At, Balanced, Times, Owners;
    match e
    case Create(w) => CreateMoves(s, w, t, p);
    case Build(i) => BuildMoves(s, i, t, p);
    case GiveUp(i) => BuildMoves(s, i, t, p);
    case Drop(r) => DropMoves(s, r, t, p);
    case Take(r) => DropMoves(s, r, t, p);
    case Drain => DrainMoves(s, t, p);
    case Reap(w) => ReapMoves(s, w, t, p);
    case Deallocate(i) => DeallocateMoves(s, i, t, p);
    case Receive(i) =>
      TimesIn(s.sent, i);
      SentCurrent(s, i);
      ReceiveMoves(s, i, t, p);
    case Crash(w) => CrashMoves(s, w, t, p);
    case _ => Untouched(s, Next(s, e), t, p);
  }

  lemma SentCurrent(s: State, i: nat)
    requires Inv(s) && i < |s.sent| && Times(s.sent, s.sent[i]) > 0
    ensures IsCurrent(s, s.sent[i])
  {
    assert Balanced(s, s.sent[i]);
  }

  lemma Untouched(s: State, s': State, t: Tag, p: Place)
    requires At(s, t, p) && IsCurrent(s', t) && s'.workers[t.worker] == s.workers[t.worker]
    requires s' == s.(counter := s'.counter, workers := s'.workers, uses := s'.uses)
    ensures At(s', t, p)
  {
  }

  /** Processes hand out ids from 1, and nothing of a generation to come has been met. */
  lemma {:induction false} NotYet(events: seq<Event>, t: Tag)
    requires Valid(events)
    ensures forall w :: w in Run(events).workers ==> Run(events).workers[w].next > 0
    ensures t.gen > Run(events).counter ==> Journey(events, t) == Unmade
    decreases |events|
  {
    if events != [] {
      var before, e := events[..|events| - 1], events[|events| - 1];
      NotYet(before, t);
      Conservation(before);
      CountsUp(Run(before), e);
      if t.gen > Run(events).counter {
        StaysUnmade(Run(before), e, t);
      }
    }
  }

  lemma CountsUp(s: State, e: Event)
    requires Enabled(s, e) && forall w :: w in s.workers ==> s.workers[w].next > 0
    ensures s.counter <= Next(s, e).counter && forall w :: w in Next(s, e).workers ==> Next(s, e).workers[w].next > 0
  {
  }

  lemma StaysUnmade(s: State, e: Event, t: Tag)
    requires Inv(s) && Enabled(s, e) && t.gen > s.counter
    ensures Moves(s, e, Unmade, t) == Unmade
  {
    assert Balanced(s, t) && ProcsOk(s);
    hide Owners, Times, Next;
    match e
    case Create(w) => assert ProcOk(s, w);
    case Build(i) => TimesIn(s.creating, i);
    case GiveUp(i) => TimesIn(s.creating, i);
    case Drop(r) => if !s.refs[r].released { OwnersIn(s.refs, r); }
    case Take(r) => if !s.refs[r].released { OwnersIn(s.refs, r); }
    case Deallocate(i) => TimesIn(s.claimed, i);
    case Receive(i) => TimesIn(s.sent, i);
    case _ =>
  }

  /** Over every run, every buffer of a running generation is in exactly the place that its journey says:
      it moves along these ways only, and on each of them for certain. */
  lemma {:induction false} JourneyHolds(events: seq<Event>, t: Tag)
    requires Valid(events) && IsCurrent(Run(events), t)
    ensures At(Run(events), t, Journey(events, t))
    decreases |events|
  {
    var before, e := events[..|events| - 1], events[|events| - 1];
    var s := Run(before);
    NotYet(before, t);
    Conservation(before);
    if IsCurrent(s, t) {
      JourneyHolds(before, t);
      StepMoves(s, e, t, Journey(before, t));
    } else {
      assert Balanced(s, t);
      assert e == Start(t.worker) && t.gen == s.counter + 1;
    }
  }

  /** A dropped reference's buffer is released: after the drop, a drain and the reaper's pass over its
      worker the release is in the worker's mailbox, and once that is received the buffer is gone. */
  lemma DroppedIsFreed(events: seq<Event>, r: nat) returns (i: nat)
    requires Valid(events) && r < |Run(events).refs| && !Run(events).refs[r].gone && !Run(events).refs[r].released
    requires IsCurrent(Run(events), Run(events).refs[r].tag)
    ensures var t := Run(events).refs[r].tag;
            var sent := events + [Drop(r)] + [Drain] + [Reap(t.worker)];
            && Valid(sent) && i < |Run(sent).sent| && Run(sent).sent[i] == t && IsResident(Run(sent), t)
            && Valid(sent + [Receive(i)]) && !IsResident(Run(sent + [Receive(i)]), t)
  {
    hide Next, Times, Owners;
    var t := Run(events).refs[r].tag;
    var e1 := events + [Drop(r)];
    RunMore(events, Drop(r));
    DropStays(Run(events), r);
    RunMore(e1, Drain);
    RunMore(e1 + [Drain], Reap(t.worker));
    var sent := e1 + [Drain] + [Reap(t.worker)];
    MovesOn(events, Drop(r), t);
    MovesOn(e1, Drain, t);
    MovesOn(e1 + [Drain], Reap(t.worker), t);
    assert Journey(sent, t) == Mailed;
    StaysCurrent(Run(e1), Drain, t);
    StaysCurrent(Run(e1 + [Drain]), Reap(t.worker), t);
    JourneyHolds(sent, t);
    i := TimesFinds(Run(sent).sent, t);
    RunMore(sent, Receive(i));
    MovesOn(sent, Receive(i), t);
    StaysCurrent(Run(sent), Receive(i), t);
    JourneyHolds(sent + [Receive(i)], t);
  }

  lemma MovesOn(events: seq<Event>, e: Event, t: Tag)
    requires Valid(events) && Enabled(Run(events), e) && Valid(events + [e])
    ensures Journey(events + [e], t) == Moves(Run(events), e, Journey(events, t), t)
  {
    assert (events + [e])[..|events|] == events;
  }

  lemma DropStays(s: State, r: nat)
    requires Enabled(s, Drop(r)) && IsCurrent(s, s.refs[r].tag)
    ensures IsCurrent(Next(s, Drop(r)), s.refs[r].tag)
  {
  }

  lemma StaysCurrent(s: State, e: Event, t: Tag)
    requires Enabled(s, e) && IsCurrent(s, t) && (e.Drain? || e.Reap? || e.Receive?)
    ensures IsCurrent(Next(s, e), t)
  {
  }

  lemma {:induction false} TimesFinds(ts: seq<Tag>, t: Tag) returns (i: nat)
    requires Times(ts, t) > 0
    ensures i < |ts| && ts[i] == t
  {
    if ts[|ts| - 1] == t {
      i := |ts| - 1;
    } else {
      i := TimesFinds(ts[..|ts| - 1], t);
    }
  }

  lemma {:induction false} OwnersFind(refs: seq<Ref>, t: Tag) returns (r: nat)
    requires Owners(refs, t) > 0
    ensures r < |refs| && refs[r].tag == t && !refs[r].released
  {
    if refs[|refs| - 1].tag == t && !refs[|refs| - 1].released {
      r := |refs| - 1;
    } else {
      r := OwnersFind(refs[..|refs| - 1], t);
    }
  }

  /** A use of a live reference of a running generation reaches the worker, where the buffer is; a use of
      any other generation's reference is not sent. */
  lemma UseArrives(events: seq<Event>, r: nat)
    requires Valid(events) && r < |Run(events).refs| && !Run(events).refs[r].gone
    ensures var s, t := Run(events), Run(events).refs[r].tag;
            var s' := Next(s, Use(r));
            && (IsCurrent(s, t) ==> s'.uses == s.uses + [t])
            && (!IsCurrent(s, t) ==> s'.uses == s.uses)
            && (IsCurrent(s, t) && !s.refs[r].released ==> IsResident(s', t))
  {
    var s, t := Run(events), Run(events).refs[r].tag;
    if IsCurrent(s, t) && !s.refs[r].released {
      LiveFinds(events, r);
    }
  }

  /** How many callers have given up on a buffer. */
  ghost function GivenUp(events: seq<Event>, t: Tag): nat
    requires Valid(events)
    decreases |events|
  {
    if events == [] then 0
    else
      var before, e := events[..|events| - 1], events[|events| - 1];
      GivenUp(before, t) + OneIf(e.GiveUp? && Run(before).creating[e.i] == t)
  }

  lemma {:induction false} OrphansGivenUp(events: seq<Event>, t: Tag)
    requires Valid(events)
    ensures Times(Run(events).orphans, t) == GivenUp(events, t)
    decreases |events|
  {
    if events != [] {
      var before, e := events[..|events| - 1], events[|events| - 1];
      OrphansGivenUp(before, t);
      if e.GiveUp? {
        TimesConcat(Run(before).orphans, [Run(before).creating[e.i]], t);
        TimesOne(Run(before).creating[e.i], t);
      }
    }
  }

  /** Nothing leaks: once no creation and no release is under way, a buffer is resident if and only if
      a reference still owns it, or its caller gave up on it. */
  lemma NothingLeaks(events: seq<Event>, t: Tag)
    requires Valid(events) && IsCurrent(Run(events), t)
    requires var s := Run(events);
             s.creating == [] && s.queue == [] && s.claimed == [] && s.drained == [] && s.sent == []
    ensures IsResident(Run(events), t) <==>
        (exists r :: 0 <= r < |Run(events).refs| && Run(events).refs[r].tag == t && !Run(events).refs[r].released)
        || GivenUp(events, t) > 0
  {
    var s := Run(events);
    Conservation(events);
    assert Balanced(s, t);
    OrphansGivenUp(events, t);
    if Owners(s.refs, t) > 0 {
      var r := OwnersFind(s.refs, t);
    }
    if r :| 0 <= r < |s.refs| && s.refs[r].tag == t && !s.refs[r].released {
      OwnersIn(s.refs, r);
    }
  }

  // -- at most one release ------------------------------------------------------------------------------

  /** How many releases a step makes of one reference. */
  function Releases(s: State, e: Event, r: nat): nat
    requires Enabled(s, e)
  {
    if (e == Drop(r) || e == Take(r)) && !s.refs[r].released then 1 else 0
  }

  ghost function AllReleases(events: seq<Event>, r: nat): nat
    requires Valid(events)
    decreases |events|
  {
    if events == [] then 0
    else AllReleases(events[..|events| - 1], r) + Releases(Run(events[..|events| - 1]), events[|events| - 1], r)
  }

  /** Whatever the order of takes, drops and drains, a reference makes at most one release: one if it
      was claimed, none before. */
  lemma {:induction false} ReleasedOnce(events: seq<Event>, r: nat)
    requires Valid(events)
    ensures AllReleases(events, r) == if r < |Run(events).refs| && Run(events).refs[r].released then 1 else 0
    decreases |events|
  {
    if events != [] {
      ReleasedOnce(events[..|events| - 1], r);
    }
  }

  // -- no release is lost on the way --------------------------------------------------------------------

  /** Releases made and not yet handled. */
  function Pending(s: State, t: Tag): nat {
    Times(s.queue, t) + Times(s.claimed, t) + Times(s.drained, t)
  }

  /** Claiming a reference makes one release of its buffer, in whatever generation. */
  function Claims(s: State, e: Event, t: Tag): nat
    requires Enabled(s, e)
  {
    match e
    case Drop(r) => Owns(s.refs[r], t)
    case Take(r) => Owns(s.refs[r], t)
    case _ => 0
  }

  /** A deallocating caller handles one release, the reaper those of a worker. */
  function Handles(s: State, e: Event, t: Tag): nat
    requires Enabled(s, e)
  {
    match e
    case Deallocate(i) => OneIf(s.claimed[i] == t)
    case Reap(w) => if t.worker == w then Times(s.drained, t) else 0
    case _ => 0
  }

  /** Nothing else makes a release or makes one go away: no crash, no restart, no drain. */
  lemma StepPending(s: State, e: Event, t: Tag)
    requires Enabled(s, e)
    ensures Pending(Next(s, e), t) + Handles(s, e, t) == Pending(s, t) + Claims(s, e, t)
  {
    hide Times, Owns, Claim;
    match e
    case Drop(r) =>
      ClaimTimes(s.refs[r], t);
      TimesConcat(s.queue, Claim(s.refs[r]).1, t);
    case Take(r) =>
      ClaimTimes(s.refs[r], t);
      TimesConcat(s.claimed, Claim(s.refs[r]).1, t);
    case Deallocate(i) => TimesWithout(s.claimed, i, t);
    case Drain =>
      TimesConcat(s.drained, s.queue, t);
      NoTimes(t);
    case Reap(w) => TimesOfWorker(s.drained, w, t);
    case _ =>
  }

  lemma NoTimes(t: Tag)
    ensures Times([], t) == 0
  {
  }

  ghost function AllClaims(events: seq<Event>, t: Tag): nat
    requires Valid(events)
    decreases |events|
  {
    if events == [] then 0
    else AllClaims(events[..|events| - 1], t) + Claims(Run(events[..|events| - 1]), events[|events| - 1], t)
  }

  ghost function AllHandled(events: seq<Event>, t: Tag): nat
    requires Valid(events)
    decreases |events|
  {
    if events == [] then 0
    else AllHandled(events[..|events| - 1], t) + Handles(Run(events[..|events| - 1]), events[|events| - 1], t)
  }

  /** Over every run, each release that was made was handled or is still on its way, though its worker
      crashed or restarted in between. */
  lemma {:induction false} ReleasesConserved(events: seq<Event>, t: Tag)
    requires Valid(events)
    ensures AllClaims(events, t) == AllHandled(events, t) + Pending(Run(events), t)
    decreases |events|
  {
    hide Next, Times, Claims, Handles, Pending;
    if events == [] {
      NoPending(t);
    } else {
      var before, e := events[..|events| - 1], events[|events| - 1];
      ReleasesConserved(before, t);
      StepPending(Run(before), e, t);
    }
  }

  lemma NoPending(t: Tag)
    ensures Pending(INIT, t) == 0
  {
  }

  /** A use stays in its worker's mailbox until it is looked up or the worker crashes, and a buffer that was
      made stays its caller's until the caller builds a reference or gives up. */
  lemma StepWaiting(s: State, e: Event, t: Tag)
    requires Enabled(s, e)
    ensures Times(Next(s, e).uses, t) + OneIf(e.Lookup? && s.uses[e.i] == t) ==
            if e == Crash(t.worker) then 0
            else Times(s.uses, t) + OneIf(e.Use? && s.refs[e.r].tag == t && IsCurrent(s, t))
    ensures Times(Next(s, e).creating, t) + OneIf((e.Build? || e.GiveUp?) && s.creating[e.i] == t) ==
            Times(s.creating, t) + OneIf(e.Create? && t == Tag(e.w, s.workers[e.w].gen, s.workers[e.w].next))
  {
    hide Times;
    match e
    case Crash(w) => TimesOfWorker(s.uses, w, t);
    case Use(r) =>
      TimesConcat(s.uses, if IsCurrent(s, s.refs[r].tag) then [s.refs[r].tag] else [], t);
      TimesOne(s.refs[r].tag, t);
      NoTimes(t);
    case Lookup(i) => TimesWithout(s.uses, i, t);
    case Create(w) =>
      TimesConcat(s.creating, [Tag(w, s.workers[w].gen, s.workers[w].next)], t);
      TimesOne(Tag(w, s.workers[w].gen, s.workers[w].next), t);
    case Build(i) => TimesWithout(s.creating, i, t);
    case GiveUp(i) => TimesWithout(s.creating, i, t);
    case _ =>
  }

  // -- why the check and the send must be one step ------------------------------------------------------

  lemma RunMore(events: seq<Event>, e: Event)
    requires Valid(events) && Enabled(Run(events), e)
    ensures Valid(events + [e]) && Run(events + [e]) == Next(Run(events), e)
  {
    assert (events + [e])[..|events|] == events;
  }

  /** A release sent by name: it names a buffer of whatever process now has the name. */
  function SendByName(s: State, w: nat, handle: nat): State
    requires w in s.workers
  {
    s.(sent := s.sent + [Tag(w, s.workers[w].gen, handle)])
  }

  /** A reference built from whatever generation the worker has by then. */
  function BuildByName(s: State, i: nat): State
    requires i < |s.creating| && s.creating[i].worker in s.workers
  {
    var t := s.creating[i];
    s.(refs := s.refs + [Ref(t.(gen := s.workers[t.worker].gen), false, false)], creating := Without(s.creating, i))
  }

  /** One buffer made and its reference dropped and drained, in the first generation. */
  const DROPPED := [Start(0), Create(0), Build(0), Drop(0), Drain]

  lemma AfterDropped()
    ensures Valid(DROPPED)
    ensures Run(DROPPED) == State(1, map[0 := Proc(1, {1}, 2)], [Ref(Tag(0, 1, 1), true, true)], [], [], [Tag(0, 1, 1)],
        [], [], [], [])
  {
    var none: seq<Event> := [];
    var t := Tag(0, 1, 1);
    RunMore(none, Start(0));
    RunMore(none + [Start(0)], Create(0));
    var made := Run(none + [Start(0)] + [Create(0)]);
    var nothing: set<nat> := {};
    assert nothing + {1} == {1} && made.workers[0] == Proc(1, nothing + {1}, 2);
    assert made.workers == map[0 := Proc(1, {1}, 2)] && made.creating == [t];
    RunMore(none + [Start(0)] + [Create(0)], Build(0));
    var built := Run(none + [Start(0)] + [Create(0)] + [Build(0)]);
    assert built.refs == [Ref(t, false, false)] && built.creating == [];
    RunMore(none + [Start(0)] + [Create(0)] + [Build(0)], Drop(0));
    var dropped := Run(none + [Start(0)] + [Create(0)] + [Build(0)] + [Drop(0)]);
    assert dropped.refs == [Ref(t, true, true)] && dropped.queue == [t];
    RunMore(none + [Start(0)] + [Create(0)] + [Build(0)] + [Drop(0)], Drain);
    assert Run(none + [Start(0)] + [Create(0)] + [Build(0)] + [Drop(0)] + [Drain]).drained == [t];
    assert none + [Start(0)] + [Create(0)] + [Build(0)] + [Drop(0)] + [Drain] == DROPPED;
  }

  /** The reaper sees that generation 1 is running; the worker restarts, and hands out id 1 again; the
      reaper's release, sent by name, then takes the buffer of a live reference. */
  lemma LateSendLoses() returns (s: State)
    ensures Valid(DROPPED) && IsCurrent(Run(DROPPED), Tag(0, 1, 1)) && Run(DROPPED).drained == [Tag(0, 1, 1)]
    ensures Valid(DROPPED + [Crash(0)] + [Start(0)] + [Create(0)] + [Build(0)])
    ensures s == Run(DROPPED + [Crash(0)] + [Start(0)] + [Create(0)] + [Build(0)])
    ensures 0 in s.workers && |SendByName(s, 0, 1).sent| == 1
    ensures var after := Next(SendByName(s, 0, 1), Receive(0));
            |after.refs| == 2 && !after.refs[1].released && IsCurrent(after, after.refs[1].tag)
                && !IsResident(after, after.refs[1].tag)
  {
    AfterDropped();
    RunMore(DROPPED, Crash(0));
    RunMore(DROPPED + [Crash(0)], Start(0));
    RunMore(DROPPED + [Crash(0)] + [Start(0)], Create(0));
    RunMore(DROPPED + [Crash(0)] + [Start(0)] + [Create(0)], Build(0));
    s := Run(DROPPED + [Crash(0)] + [Start(0)] + [Create(0)] + [Build(0)]);
    assert s.workers[0].gen == 2 && s.refs[1] == Ref(Tag(0, 2, 1), false, false);
  }

  /** A response of generation 1 whose reference is built after a restart is tagged with generation
      2: it names a buffer that is not there, or, once id 1 is given out again, somebody else's. */
  lemma LateBuildAliases() returns (s: State)
    ensures Valid([Start(0)] + [Create(0)] + [Crash(0)] + [Start(0)] + [Create(0)])
    ensures s == Run([Start(0)] + [Create(0)] + [Crash(0)] + [Start(0)] + [Create(0)])
    ensures |s.creating| == 2 && 0 in s.workers && s.creating[0] == Tag(0, 1, 1)
    ensures var late := BuildByName(s, 0);
            && |late.creating| == 1
            && var both := Next(late, Build(0));
               |both.refs| == 2 && both.refs[0].tag == both.refs[1].tag && !both.refs[0].released
                   && !both.refs[1].released
  {
    var none: seq<Event> := [];
    RunMore(none, Start(0));
    assert none + [Start(0)] == [Start(0)];
    RunMore([Start(0)], Create(0));
    RunMore([Start(0)] + [Create(0)], Crash(0));
    RunMore([Start(0)] + [Create(0)] + [Crash(0)], Start(0));
    RunMore([Start(0)] + [Create(0)] + [Crash(0)] + [Start(0)], Create(0));
    s := Run([Start(0)] + [Create(0)] + [Crash(0)] + [Start(0)] + [Create(0)]);
  }
}
