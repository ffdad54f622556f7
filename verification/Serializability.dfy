// The identify lock (crates/fp-core/src/fuzzy/engine.rs, mod.rs). Each backend guards only itself,
// so an operation is many separate steps; here any number of threads interleave those steps with
// lock-free readers. In every reachable system the store is the sequential result of the
// operations completed so far, in lock order, advanced by a prefix of the holder's own steps.
module Serializability {
  import opened Basics
  import opened Component
  import opened Scoring
  import opened Ranking
  import opened Engine
  import B = Blocking
  import F = Frequency
  import A = Agreement
  import V = Velocity

  /** Where a thread that holds the lock stands in its operation. */
  datatype Pc =
    | AtRecall
    | AtScore(scored: seq<Scored>)
    | AtLearn(o: Outcome, template: map<string, Stored>, done: nat)
    | AtFrequency(o: Outcome, done: nat)
    | AtIndex(o: Outcome, done: nat)
    | AtLibrary(o: Outcome)
    | AtIpRecord(o: Outcome)
    | AtIpCount(o: Outcome)
    | AtJa4Record(o: Outcome)
    | AtJa4Count(o: Outcome)
    | AtEraseRecord
    | AtEraseBlocks(existed: bool)
    | AtPurge
    | AtEnd(reply: Reply)

  /** What an identification persists, derived from its probe before anything is written. */
  datatype Job = Job(
    stored: map<string, Stored>,
    names: seq<string>,
    hashes: seq<Hash32>,
    keys: seq<Hash32>,
    now: nat,
    ip: Option<string>,
    ja4: Option<string>,
    keep: set<string>)
  {
    ghost predicate Valid() {
      forall x :: x in names ==> x in stored
    }
  }

  ghost function JobOf(env: Env, l: Label): Job
    requires l.Identify?
  {
    var stored := StoredOf(env, l);
    var names := Sorted(stored.Keys);
    Job(stored, names, ScalarHashes(env.keying, names, stored), KeysOf(env, stored), l.now, l.ip, Ja4Key(l.ja4), l.keep)
  }

  /** What the verdict leads to: learning first on a match, storing on a new device, nothing on a
      review. */
  function AfterDecision(s: Store, o: Outcome): Pc {
    if o.decision == Match then
      if o.visitorId in s.lib.records then AtLearn(o, s.lib.records[o.visitorId].components, 0) else AtFrequency(o, 0)
    else if o.decision == NewDevice then AtFrequency(o, 0)
    else AtEnd(Answer(o))
  }

  function BandedIp(o: Outcome, n: nat): Outcome {
    var band := V.ClassifyWith(n, V.MEDIUM, V.HIGH);
    o.(velocity := band, confidence := if band == V.BandHigh then Penalised(o.confidence) else o.confidence)
  }

  function BandedJa4(o: Outcome, n: nat): Outcome {
    o.(velocityJa4 := V.ClassifyWith(n, V.JA4_MEDIUM, V.JA4_HIGH))
  }

  // ---- The steps that write ----

  ghost function LearnStep(k: Keying, pol: Policy, j: Job, pc: Pc, s: Store): (Pc, Store)
    requires pc.AtLearn? && j.Valid()
  {
    if pc.done < |j.names| then
      (AtLearn(pc.o, pc.template, pc.done + 1),
       s.(agree := A.RecordedAll(s.agree, pol.maxAgreement,
                                 Agreements(k, s.freq, [j.names[pc.done]], j.stored, pc.template))))
    else (AtFrequency(pc.o, 0), s)
  }

  ghost function FrequencyStep(pol: Policy, j: Job, pc: Pc, s: Store): (Pc, Store)
    requires pc.AtFrequency?
  {
    if pc.done < |j.hashes| then
      (AtFrequency(pc.o, pc.done + 1), s.(freq := F.Recorded(s.freq, pol.maxFrequency, j.hashes[pc.done])))
    else (AtIndex(pc.o, 0), s)
  }

  ghost function IndexStep(pol: Policy, j: Job, pc: Pc, s: Store): (Pc, Store)
    requires pc.AtIndex?
  {
    if pc.done < |j.keys| then
      (AtIndex(pc.o, pc.done + 1), s.(index := B.Inserted(s.index, pol.maxBlock, j.keys[pc.done], pc.o.visitorId)))
    else (AtLibrary(pc.o), s)
  }

  /** `None` when the eviction chosen does not fit the state. */
  ghost function LibraryStep(pol: Policy, j: Job, pc: Pc, s: Store): Option<(Pc, Store)>
    requires pc.AtLibrary?
  {
    if !s.lib.ValidKeep(pol.bounds, pc.o.visitorId, j.stored, j.now, j.keep) then None
    else Some((if pc.o.decision == Match then AtEnd(Answer(pc.o)) else AtIpRecord(pc.o),
               s.(lib := s.lib.Observed(pol.bounds, pc.o.visitorId, j.stored, j.now, j.keep))))
  }

  ghost function VelocityStep(pol: Policy, j: Job, pc: Pc, s: Store): Option<(Pc, Store)>
    requires pc.AtIpRecord? || pc.AtIpCount? || pc.AtJa4Record? || pc.AtJa4Count?
  {
    var secs := j.now / 1000;
    if pc.AtIpRecord? then
      if j.ip.None? then Some((AtJa4Record(pc.o), s))
      else Some((AtIpCount(pc.o), s.(vel := V.Recorded(s.vel, pol.maxVelocity, j.ip.value, secs))))
    else if pc.AtIpCount? then
      if j.ip.None? then None
      else Some((AtJa4Record(BandedIp(pc.o, V.Count(s.vel, j.ip.value, secs, V.WINDOW))),
                 s.(vel := V.Pruned(s.vel, j.ip.value, secs, V.WINDOW))))
    else if pc.AtJa4Record? then
      if j.ja4.None? then Some((AtEnd(Answer(pc.o)), s))
      else Some((AtJa4Count(pc.o), s.(vel := V.Recorded(s.vel, pol.maxVelocity, j.ja4.value, secs))))
    else
      if j.ja4.None? then None
      else Some((AtEnd(Answer(BandedJa4(pc.o, V.Count(s.vel, j.ja4.value, secs, V.WINDOW)))),
                 s.(vel := V.Pruned(s.vel, j.ja4.value, secs, V.WINDOW))))
  }

  ghost function PersistStep(k: Keying, pol: Policy, j: Job, pc: Pc, s: Store): Option<(Pc, Store)>
    requires j.Valid()
  {
    match pc
    case AtLearn(_, _, _) => Some(LearnStep(k, pol, j, pc, s))
    case AtFrequency(_, _) => Some(FrequencyStep(pol, j, pc, s))
    case AtIndex(_, _) => Some(IndexStep(pol, j, pc, s))
    case AtLibrary(_) => LibraryStep(pol, j, pc, s)
    case AtIpRecord(_) => VelocityStep(pol, j, pc, s)
    case AtIpCount(_) => VelocityStep(pol, j, pc, s)
    case AtJa4Record(_) => VelocityStep(pol, j, pc, s)
    case AtJa4Count(_) => VelocityStep(pol, j, pc, s)
    case _ => None
  }

  /** One step of an operation: a read or a single backend write. `None` when the choices in its
      label (the walk order, the eviction) do not fit the state. */
  ghost function Micro(env: Env, pol: Policy, l: Label, pc: Pc, s: Store): Option<(Pc, Store)>
    requires !l.ScoreOnly?
  {
    match l
    case Identify(_, _, _, _, _, _) =>
      if pc.AtRecall? then
        if Enumerates(l.order, Recall(env, s, StoredOf(env, l))) then Some((AtScore([]), s)) else None
      else if pc.AtScore? then
        if |pc.scored| < |l.order| then
          Some((AtScore(pc.scored + [ScoreId(env, s, StoredOf(env, l), l.order[|pc.scored|])]), s))
        else Some((AfterDecision(s, Verdict(env, pc.scored, l.probe)), s))
      else PersistStep(env.keying, pol, JobOf(env, l), pc, s)
    case Erase(v) =>
      if pc.AtEraseRecord? then Some((AtEraseBlocks(v in s.lib.records), s.(lib := s.lib.Removed(v))))
      else if pc.AtEraseBlocks? then Some((AtEnd(Existed(pc.existed)), s.(index := B.Removed(s.index, v))))
      else None
    case Purge(now, age) =>
      if pc.AtPurge? then
        var t := s.(lib := s.lib.Purged(now, age));
        Some((AtEnd(PurgedCount(|s.lib.records| - |t.lib.records|)), t))
      else None
  }

  function Start(l: Label): Pc
    requires !l.ScoreOnly?
  {
    match l
    case Identify(_, _, _, _, _, _) => AtRecall
    case Erase(_) => AtEraseRecord
    case Purge(_, _) => AtPurge
  }

  // ---- What the store is at each point, in terms of the store when the lock was taken ----

  ghost function Taught(k: Keying, pol: Policy, s0: Store, j: Job, o: Outcome, done: nat): Store
    requires j.Valid() && done <= |j.names|
  {
    if o.decision != Match || o.visitorId !in s0.lib.records then s0
    else s0.(agree := A.RecordedAll(s0.agree, pol.maxAgreement,
               Agreements(k, s0.freq, j.names[..done], j.stored, s0.lib.records[o.visitorId].components)))
  }

  ghost function Counted(k: Keying, pol: Policy, s0: Store, j: Job, o: Outcome, done: nat): Store
    requires j.Valid() && done <= |j.hashes|
  {
    Taught(k, pol, s0, j, o, |j.names|).(freq := F.RecordedAll(s0.freq, pol.maxFrequency, j.hashes[..done]))
  }

  ghost function Indexed(k: Keying, pol: Policy, s0: Store, j: Job, o: Outcome, done: nat): Store
    requires j.Valid() && done <= |j.keys|
  {
    Counted(k, pol, s0, j, o, |j.hashes|).(index := B.InsertedAll(s0.index, pol.maxBlock, j.keys[..done], o.visitorId))
  }

  ghost function Filed(k: Keying, pol: Policy, s0: Store, j: Job, o: Outcome): Store
    requires j.Valid()
  {
    Indexed(k, pol, s0, j, o, |j.keys|).(lib := s0.lib.Observed(pol.bounds, o.visitorId, j.stored, j.now, j.keep))
  }

  function IpVel(pol: Policy, s0: Store, j: Job): V.Vel {
    Bumped(pol, s0.vel, j.ip, j.now / 1000)
  }

  function IpOutcome(pol: Policy, s0: Store, j: Job, o: Outcome): Outcome {
    BandedIp(o, BumpCount(pol, s0.vel, j.ip, j.now / 1000))
  }

  function FinalOutcome(pol: Policy, s0: Store, j: Job, o: Outcome): Outcome {
    if o.decision == NewDevice
    then BandedJa4(IpOutcome(pol, s0, j, o), BumpCount(pol, IpVel(pol, s0, j), j.ja4, j.now / 1000))
    else o
  }

  ghost function FinalStore(k: Keying, pol: Policy, s0: Store, j: Job, o: Outcome): Store
    requires j.Valid()
  {
    match o.decision
    case Review => s0
    case Match => Filed(k, pol, s0, j, o)
    case NewDevice => Filed(k, pol, s0, j, o).(vel := Bumped(pol, IpVel(pol, s0, j), j.ja4, j.now / 1000))
  }

  predicate Kept(pol: Policy, s0: Store, j: Job, o: Outcome) {
    s0.lib.ValidKeep(pol.bounds, o.visitorId, j.stored, j.now, j.keep)
  }

  /** A fresh verdict carries neutral bands. */
  predicate Neutral(o: Outcome) {
    o.velocity == V.BandLow && o.velocityJa4 == V.BandLow
  }

  /** The holder, having reached verdict `o` on `s0`, has taken a prefix of its writes. */
  ghost predicate Persisting(k: Keying, pol: Policy, s0: Store, j: Job, o: Outcome, pc: Pc, s: Store)
    requires j.Valid()
  {
    match pc
    case AtLearn(p, template, done) =>
      && p == o && o.decision == Match && o.visitorId in s0.lib.records
      && template == s0.lib.records[o.visitorId].components
      && done <= |j.names| && s == Taught(k, pol, s0, j, o, done)
    case AtFrequency(p, done) =>
      p == o && o.decision != Review && done <= |j.hashes| && s == Counted(k, pol, s0, j, o, done)
    case AtIndex(p, done) =>
      p == o && o.decision != Review && done <= |j.keys| && s == Indexed(k, pol, s0, j, o, done)
    case AtLibrary(p) => p == o && o.decision != Review && s == Indexed(k, pol, s0, j, o, |j.keys|)
    case AtIpRecord(p) => p == o && o.decision == NewDevice && Kept(pol, s0, j, o) && s == Filed(k, pol, s0, j, o)
    case AtIpCount(p) =>
      && p == o && o.decision == NewDevice && Kept(pol, s0, j, o) && j.ip.Some?
      && s == Filed(k, pol, s0, j, o).(vel := V.Recorded(s0.vel, pol.maxVelocity, j.ip.value, j.now / 1000))
    case AtJa4Record(p) =>
      && p == IpOutcome(pol, s0, j, o) && o.decision == NewDevice && Kept(pol, s0, j, o)
      && s == Filed(k, pol, s0, j, o).(vel := IpVel(pol, s0, j))
    case AtJa4Count(p) =>
      && p == IpOutcome(pol, s0, j, o) && o.decision == NewDevice && Kept(pol, s0, j, o) && j.ja4.Some?
      && s == Filed(k, pol, s0, j, o).(vel := V.Recorded(IpVel(pol, s0, j), pol.maxVelocity, j.ja4.value, j.now / 1000))
    case AtEnd(reply) =>
      && (o.decision != Review ==> Kept(pol, s0, j, o))
      && s == FinalStore(k, pol, s0, j, o) && reply == Answer(FinalOutcome(pol, s0, j, o))
    case _ => false
  }

  /** The operation is complete: store and reply are those of the single sequential step. */
  ghost predicate Ended(env: Env, pol: Policy, s0: Store, l: Label, reply: Reply, s: Store) {
    Enabled(env, pol, s0, l) && s == Next(env, pol, s0, l) && reply == ReplyOf(env, pol, s0, l)
  }

  /** The holder has taken a prefix of its own steps from `s0`, reaching `pc` and `s`. */
  ghost predicate Advanced(env: Env, pol: Policy, s0: Store, l: Label, pc: Pc, s: Store)
    requires !l.ScoreOnly?
  {
    match l
    case Identify(_, _, _, _, _, _) =>
      if pc.AtRecall? then s == s0
      else
        && Enumerates(l.order, Recall(env, s0, StoredOf(env, l)))
        && if pc.AtScore? then
             && s == s0 && |pc.scored| <= |l.order|
             && pc.scored == ScoredIn(Scorer(env, s0, StoredOf(env, l)), l.order[..|pc.scored|])
           else Persisting(env.keying, pol, s0, JobOf(env, l), VerdictOf(env, s0, l), pc, s)
    case Erase(v) =>
      || (pc.AtEraseRecord? && s == s0)
      || (pc.AtEraseBlocks? && s == s0.(lib := s0.lib.Removed(v)) && pc.existed == (v in s0.lib.records))
      || (pc.AtEnd? && Ended(env, pol, s0, l, pc.reply, s))
    case Purge(_, _) =>
      || (pc.AtPurge? && s == s0)
      || (pc.AtEnd? && Ended(env, pol, s0, l, pc.reply, s))
  }

  // ---- Each write extends the prefix ----

  lemma {:induction false} AgreementsSum(k: Keying, f: F.Freq, a: seq<string>, b: seq<string>,
                                         probe: map<string, Stored>, template: map<string, Stored>)
    requires forall x :: x in a + b ==> x in probe
    ensures (forall x :: x in a ==> x in probe) && (forall x :: x in b ==> x in probe)
    ensures Agreements(k, f, a + b, probe, template) ==
      Agreements(k, f, a, probe, template) + Agreements(k, f, b, probe, template)
  {
    forall x | x in a ensures x in probe { assert x in a + b; }
    forall x | x in b ensures x in probe { assert x in a + b; }
    if a == [] {
      assert a + b == b;
    } else {
      assert (a + b)[0] == a[0] && (a + b)[1..] == a[1..] + b;
      AgreementsSum(k, f, a[1..], b, probe, template);
    }
  }

  lemma Learns(k: Keying, pol: Policy, s0: Store, j: Job, o: Outcome, pc: Pc, s: Store)
    requires j.Valid() && pc.AtLearn? && Persisting(k, pol, s0, j, o, pc, s)
    ensures var (pc', s') := LearnStep(k, pol, j, pc, s); Persisting(k, pol, s0, j, o, pc', s')
  {
    if pc.done < |j.names| {
      var before, one := j.names[..pc.done], [j.names[pc.done]];
      assert j.names[..pc.done + 1] == before + one;
      AgreementsSum(k, s0.freq, before, one, j.stored, pc.template);
      A.RecordedAllAppend(s0.agree, pol.maxAgreement,
        Agreements(k, s0.freq, before, j.stored, pc.template), Agreements(k, s0.freq, one, j.stored, pc.template));
    } else {
      assert j.hashes[..0] == [];
    }
  }

  lemma Counts(k: Keying, pol: Policy, s0: Store, j: Job, o: Outcome, pc: Pc, s: Store)
    requires j.Valid() && pc.AtFrequency? && Persisting(k, pol, s0, j, o, pc, s)
    ensures var (pc', s') := FrequencyStep(pol, j, pc, s); Persisting(k, pol, s0, j, o, pc', s')
  {
    if pc.done < |j.hashes| {
      assert j.hashes[..pc.done + 1] == j.hashes[..pc.done] + [j.hashes[pc.done]];
      F.RecordedAllAppend(s0.freq, pol.maxFrequency, j.hashes[..pc.done], [j.hashes[pc.done]]);
    } else {
      assert j.keys[..0] == [];
    }
  }

  lemma Indexes(k: Keying, pol: Policy, s0: Store, j: Job, o: Outcome, pc: Pc, s: Store)
    requires j.Valid() && pc.AtIndex? && Persisting(k, pol, s0, j, o, pc, s)
    ensures var (pc', s') := IndexStep(pol, j, pc, s); Persisting(k, pol, s0, j, o, pc', s')
  {
    if pc.done < |j.keys| {
      assert j.keys[..pc.done + 1][..pc.done] == j.keys[..pc.done];
    }
  }

  lemma Files(k: Keying, pol: Policy, s0: Store, j: Job, o: Outcome, pc: Pc, s: Store)
    requires j.Valid() && pc.AtLibrary? && Persisting(k, pol, s0, j, o, pc, s)
    ensures var r := LibraryStep(pol, j, pc, s); r.Some? ==> Persisting(k, pol, s0, j, o, r.value.0, r.value.1)
  {
  }

  lemma CountsVelocity(k: Keying, pol: Policy, s0: Store, j: Job, o: Outcome, pc: Pc, s: Store)
    requires j.Valid() && Neutral(o) && Persisting(k, pol, s0, j, o, pc, s)
    requires pc.AtIpRecord? || pc.AtIpCount? || pc.AtJa4Record? || pc.AtJa4Count?
    ensures var r := VelocityStep(pol, j, pc, s); r.Some? ==> Persisting(k, pol, s0, j, o, r.value.0, r.value.1)
  {
  }

  lemma Persists(k: Keying, pol: Policy, s0: Store, j: Job, o: Outcome, pc: Pc, s: Store)
    requires j.Valid() && Neutral(o) && Persisting(k, pol, s0, j, o, pc, s)
    ensures var r := PersistStep(k, pol, j, pc, s); r.Some? ==> Persisting(k, pol, s0, j, o, r.value.0, r.value.1)
  {
    match pc
    case AtLearn(_, _, _) => Learns(k, pol, s0, j, o, pc, s);
    case AtFrequency(_, _) => Counts(k, pol, s0, j, o, pc, s);
    case AtIndex(_, _) => Indexes(k, pol, s0, j, o, pc, s);
    case AtLibrary(_) => Files(k, pol, s0, j, o, pc, s);
    case AtEnd(_) =>
    case _ => CountsVelocity(k, pol, s0, j, o, pc, s);
  }

  lemma DecisionStarts(k: Keying, pol: Policy, s0: Store, j: Job, o: Outcome)
    requires j.Valid() && (o.decision == Match ==> o.visitorId in s0.lib.records)
    ensures Persisting(k, pol, s0, j, o, AfterDecision(s0, o), s0)
  {
    assert j.names[..0] == [] && j.hashes[..0] == [];
  }

  lemma ScoreMore(score: string -> Scored, order: seq<string>, scored: seq<Scored>)
    requires |scored| < |order| && scored == ScoredIn(score, order[..|scored|])
    ensures scored + [score(order[|scored|])] == ScoredIn(score, order[..|scored| + 1])
  {
  }

  lemma DecisionAdvances(env: Env, pol: Policy, s0: Store, l: Label, scored: seq<Scored>)
    requires l.Identify? && Enumerates(l.order, Recall(env, s0, StoredOf(env, l)))
    requires scored == ScoredIn(Scorer(env, s0, StoredOf(env, l)), l.order)
    ensures Persisting(env.keying, pol, s0, JobOf(env, l), VerdictOf(env, s0, l),
                       AfterDecision(s0, Verdict(env, scored, l.probe)), s0)
  {
    var o := VerdictOf(env, s0, l);
    if o.decision == Match {
      VerdictNamesLiveRecord(env, s0, l.probe, l.order);
    }
    DecisionStarts(env.keying, pol, s0, JobOf(env, l), o);
  }

  lemma ScoreAdvances(env: Env, pol: Policy, s0: Store, l: Label, pc: Pc, s: Store)
    requires l.Identify? && pc.AtScore? && Advanced(env, pol, s0, l, pc, s)
    ensures var r := Micro(env, pol, l, pc, s); r.Some? && Advanced(env, pol, s0, l, r.value.0, r.value.1)
  {
    var score, n := Scorer(env, s0, StoredOf(env, l)), |pc.scored|;
    if n < |l.order| {
      assert score(l.order[n]) == ScoreId(env, s0, StoredOf(env, l), l.order[n]);
      ScoreMore(score, l.order, pc.scored);
    } else {
      assert l.order[..n] == l.order;
      DecisionAdvances(env, pol, s0, l, pc.scored);
    }
  }

  lemma VerdictNeutral(env: Env, best: Option<Scored>, second: Option<Score>, probe: Json)
    ensures Neutral(VerdictFrom(env, best, second, probe))
  {
  }

  /** Every step of the lock holder extends its prefix. */
  lemma MicroAdvances(env: Env, pol: Policy, s0: Store, l: Label, pc: Pc, s: Store)
    requires !l.ScoreOnly? && Advanced(env, pol, s0, l, pc, s)
    ensures var r := Micro(env, pol, l, pc, s); r.Some? ==> Advanced(env, pol, s0, l, r.value.0, r.value.1)
  {
    if l.Identify? {
      if pc.AtScore? {
        ScoreAdvances(env, pol, s0, l, pc, s);
      } else if !pc.AtRecall? {
        var xs := ScoredIn(Scorer(env, s0, StoredOf(env, l)), l.order);
        VerdictNeutral(env, Best(xs), Second(xs), l.probe);
        Persists(env.keying, pol, s0, JobOf(env, l), VerdictOf(env, s0, l), pc, s);
      }
    }
  }

  lemma TaughtIsLearned(env: Env, pol: Policy, s0: Store, j: Job, o: Outcome)
    requires j.names == Sorted(j.stored.Keys)
    ensures Taught(env.keying, pol, s0, j, o, |j.names|) ==
      if o.decision == Match then Learned(env, pol, s0, o.visitorId, j.stored) else s0
  {
    assert j.names[..|j.names|] == j.names;
  }

  lemma FiledShape(k: Keying, pol: Policy, s0: Store, j: Job, o: Outcome)
    requires j.Valid()
    ensures Filed(k, pol, s0, j, o) == Taught(k, pol, s0, j, o, |j.names|).(
      freq := F.RecordedAll(s0.freq, pol.maxFrequency, j.hashes),
      index := B.InsertedAll(s0.index, pol.maxBlock, j.keys, o.visitorId),
      lib := s0.lib.Observed(pol.bounds, o.visitorId, j.stored, j.now, j.keep))
  {
    assert j.hashes[..|j.hashes|] == j.hashes;
    assert j.keys[..|j.keys|] == j.keys;
  }

  lemma LearningIsApart(env: Env, pol: Policy, s0: Store, v: string, stored: map<string, Stored>)
    ensures Learned(env, pol, s0, v, stored).(agree := s0.agree) == s0
  {
  }

  lemma FiledIsObserved(env: Env, pol: Policy, s0: Store, j: Job, o: Outcome)
    requires j.names == Sorted(j.stored.Keys) && j.hashes == ScalarHashes(env.keying, j.names, j.stored)
    requires j.keys == KeysOf(env, j.stored)
    ensures Filed(env.keying, pol, s0, j, o) ==
      Observed(env, pol, if o.decision == Match then Learned(env, pol, s0, o.visitorId, j.stored) else s0,
               o.visitorId, j.stored, j.now, j.keep)
  {
    FiledShape(env.keying, pol, s0, j, o);
    TaughtIsLearned(env, pol, s0, j, o);
    LearningIsApart(env, pol, s0, o.visitorId, j.stored);
  }

  /** The whole sequence of writes amounts to the sequential step. */
  lemma PersistIsSequential(env: Env, pol: Policy, s0: Store, l: Label, o: Outcome)
    requires l.Identify?
    ensures FinalStore(env.keying, pol, s0, JobOf(env, l), o) ==
            AfterVerdict(env, pol, s0, o, StoredOf(env, l), l.now, l.ip, l.ja4, l.keep)
    ensures FinalOutcome(pol, s0, JobOf(env, l), o) ==
            if o.decision == NewDevice then WithVelocity(pol, s0.vel, o, l.ip, l.ja4, l.now / 1000) else o
  {
    FiledIsObserved(env, pol, s0, JobOf(env, l), o);
  }

  lemma IdentifyEnabled(env: Env, pol: Policy, s0: Store, l: Label, o: Outcome)
    requires l.Identify? && o == VerdictOf(env, s0, l)
    requires Enumerates(l.order, Recall(env, s0, StoredOf(env, l)))
    requires o.decision != Review ==> Kept(pol, s0, JobOf(env, l), o)
    ensures Enabled(env, pol, s0, l)
  {
  }

  lemma IdentifyEnds(env: Env, pol: Policy, s0: Store, l: Label, o: Outcome)
    requires l.Identify? && o == VerdictOf(env, s0, l)
    ensures FinalStore(env.keying, pol, s0, JobOf(env, l), o) == Next(env, pol, s0, l)
    ensures Answer(FinalOutcome(pol, s0, JobOf(env, l), o)) == ReplyOf(env, pol, s0, l)
  {
    PersistIsSequential(env, pol, s0, l, o);
  }

  lemma IdentifyEnded(env: Env, pol: Policy, s0: Store, l: Label, o: Outcome, reply: Reply, s: Store)
    requires l.Identify? && o == VerdictOf(env, s0, l)
    requires Enumerates(l.order, Recall(env, s0, StoredOf(env, l)))
    requires o.decision != Review ==> Kept(pol, s0, JobOf(env, l), o)
    requires s == FinalStore(env.keying, pol, s0, JobOf(env, l), o)
    requires reply == Answer(FinalOutcome(pol, s0, JobOf(env, l), o))
    ensures Ended(env, pol, s0, l, reply, s)
  {
    IdentifyEnabled(env, pol, s0, l, o);
    IdentifyEnds(env, pol, s0, l, o);
  }

  lemma PersistedEnd(k: Keying, pol: Policy, s0: Store, j: Job, o: Outcome, pc: Pc, s: Store)
    requires j.Valid() && pc.AtEnd? && Persisting(k, pol, s0, j, o, pc, s)
    ensures o.decision != Review ==> Kept(pol, s0, j, o)
    ensures s == FinalStore(k, pol, s0, j, o) && pc.reply == Answer(FinalOutcome(pol, s0, j, o))
  {
  }

  lemma IdentifyAtEnd(env: Env, pol: Policy, s0: Store, l: Label, pc: Pc, s: Store)
    requires l.Identify? && pc.AtEnd? && Advanced(env, pol, s0, l, pc, s)
    ensures Enumerates(l.order, Recall(env, s0, StoredOf(env, l)))
    ensures Persisting(env.keying, pol, s0, JobOf(env, l), VerdictOf(env, s0, l), pc, s)
  {
  }

  /** A finished operation has taken exactly its sequential step, with the sequential reply. */
  lemma EndIsSequential(env: Env, pol: Policy, s0: Store, l: Label, pc: Pc, s: Store)
    requires !l.ScoreOnly? && pc.AtEnd? && Advanced(env, pol, s0, l, pc, s)
    ensures Ended(env, pol, s0, l, pc.reply, s)
  {
    if l.Identify? {
      var j, o := JobOf(env, l), VerdictOf(env, s0, l);
      IdentifyAtEnd(env, pol, s0, l, pc, s);
      PersistedEnd(env.keying, pol, s0, j, o, pc, s);
      IdentifyEnded(env, pol, s0, l, o, pc.reply, s);
    }
  }

  // ---- Threads ----

  datatype Thread =
    | Waiting(l: Label)
    | Running(l: Label, pc: Pc)
    | Finished(l: Label, reply: Reply)
    | Reading(probe: Json, order: Option<seq<string>>, scored: seq<Scored>)
    | Read(outcome: Outcome)

  /** The shared store, the lock, the threads, and the operations completed so far in the order in
      which they released the lock. */
  datatype System = System(store: Store, holder: Option<nat>, threads: map<nat, Thread>, log: seq<(nat, Label)>)

  /** A reader takes no lock: it recalls, then scores one candidate at a time, then decides. */
  ghost predicate ReaderStep(env: Env, s: Store, r: Thread, next: Thread)
    requires r.Reading?
  {
    var stored := StoredMap(env.keying, r.probe);
    if r.order.None? then
      next.Reading? && next.probe == r.probe && next.scored == [] && next.order.Some?
      && Enumerates(next.order.value, Recall(env, s, stored))
    else if |r.scored| < |r.order.value| then
      next == Reading(r.probe, r.order, r.scored + [ScoreId(env, s, stored, r.order.value[|r.scored|])])
    else next == Read(Verdict(env, r.scored, r.probe))
  }

  /** Thread `t` takes a step. */
  ghost predicate ThreadStep(env: Env, pol: Policy, a: System, b: System, t: nat) {
    t in a.threads &&
    match a.threads[t]
    case Waiting(l) =>
      !l.ScoreOnly? && a.holder.None? && b == a.(holder := Some(t), threads := a.threads[t := Running(l, Start(l))])
    case Running(l, pc) =>
      !l.ScoreOnly? && a.holder == Some(t) &&
      if pc.AtEnd? then b == System(a.store, None, a.threads[t := Finished(l, pc.reply)], a.log + [(t, l)])
      else
        var r := Micro(env, pol, l, pc, a.store);
        r.Some? && b == a.(store := r.value.1, threads := a.threads[t := Running(l, r.value.0)])
    case Reading(_, _, _) =>
      exists next :: ReaderStep(env, a.store, a.threads[t], next) && b == a.(threads := a.threads[t := next])
    case _ => false
  }

  ghost predicate Initial(a: System) {
    && a.store == EMPTY && a.holder.None? && a.log == []
    && forall t :: t in a.threads ==>
         (a.threads[t].Waiting? && !a.threads[t].l.ScoreOnly?) || (a.threads[t].Reading? && a.threads[t].order.None?)
  }

  function Labels(log: seq<(nat, Label)>): seq<Label> {
    seq(|log|, i requires 0 <= i < |log| => log[i].1)
  }

  /** The sequential store after the logged operations. */
  ghost function Sequential(env: Env, pol: Policy, log: seq<(nat, Label)>): Store {
    Run(env, pol, Labels(log))
  }

  /** Entry `i` of the log is a finished thread whose reply is the sequential one. */
  ghost predicate Logged(env: Env, pol: Policy, a: System, i: nat)
    requires i < |a.log|
  {
    var (t, l) := a.log[i];
    t in a.threads && a.threads[t] == Finished(l, ReplyOf(env, pol, Sequential(env, pol, a.log[..i]), l))
  }

  ghost predicate InLog(log: seq<(nat, Label)>, t: nat) {
    exists i :: 0 <= i < |log| && log[i].0 == t
  }

  /** The store is the sequential one advanced by a prefix of the holder's steps; only the holder is
      running; the log holds each finished operation exactly once, with its sequential reply. */
  ghost predicate Serialized(env: Env, pol: Policy, a: System) {
    && Feasible(env, pol, Labels(a.log))
    && (match a.holder
        case None => a.store == Sequential(env, pol, a.log)
        case Some(t) =>
          && t in a.threads && a.threads[t].Running? && !a.threads[t].l.ScoreOnly?
          && Advanced(env, pol, Sequential(env, pol, a.log), a.threads[t].l, a.threads[t].pc, a.store))
    && (forall t :: t in a.threads && a.threads[t].Running? ==> a.holder == Some(t))
    && (forall t :: t in a.threads && a.threads[t].Waiting? ==> !a.threads[t].l.ScoreOnly?)
    && (forall t :: t in a.threads ==> (a.threads[t].Finished? <==> InLog(a.log, t)))
    && (forall i: nat :: i < |a.log| ==> Logged(env, pol, a, i))
    && (forall i, j :: 0 <= i < j < |a.log| ==> a.log[i].0 != a.log[j].0)
  }

  lemma InitialSerialized(env: Env, pol: Policy, a: System)
    requires Initial(a)
    ensures Serialized(env, pol, a)
  {
    assert Labels(a.log) == [];
  }

  /** A step that keeps the log and every finished thread keeps what the log says. */
  lemma LogKept(env: Env, pol: Policy, a: System, b: System, t: nat)
    requires Serialized(env, pol, a) && b.log == a.log && t in a.threads && t in b.threads
    requires b.threads == a.threads[t := b.threads[t]]
    requires !a.threads[t].Finished? && !b.threads[t].Finished?
    ensures forall u :: u in b.threads ==> (b.threads[u].Finished? <==> InLog(b.log, u))
    ensures forall i: nat :: i < |b.log| ==> Logged(env, pol, b, i)
  {
    forall i: nat | i < |b.log| ensures Logged(env, pol, b, i) {
      assert Logged(env, pol, a, i);
    }
  }

  lemma LabelsSnoc(log: seq<(nat, Label)>, e: (nat, Label))
    ensures Labels(log + [e]) == Labels(log) + [e.1]
    ensures forall i :: 0 <= i <= |log| ==> (log + [e])[..i] == log[..i]
  {
  }

  lemma ReleaseLogged(env: Env, pol: Policy, a: System, b: System, t: nat, l: Label, reply: Reply)
    requires forall i: nat :: i < |a.log| ==> Logged(env, pol, a, i)
    requires !InLog(a.log, t) && b.log == a.log + [(t, l)] && b.threads == a.threads[t := Finished(l, reply)]
    requires reply == ReplyOf(env, pol, Sequential(env, pol, a.log), l)
    ensures forall i: nat :: i < |b.log| ==> Logged(env, pol, b, i)
  {
    LabelsSnoc(a.log, (t, l));
    forall i: nat | i < |b.log| ensures Logged(env, pol, b, i) {
      assert b.log[..i] == a.log[..i];
      if i < |a.log| {
        assert Logged(env, pol, a, i);
        assert a.log[i].0 != t;
      } else {
        assert a.log[..i] == a.log;
      }
    }
  }

  lemma InLogSnoc(log: seq<(nat, Label)>, e: (nat, Label), u: nat)
    ensures InLog(log + [e], u) <==> InLog(log, u) || u == e.0
  {
    assert (log + [e])[|log|] == e;
    if InLog(log, u) {
      var i :| 0 <= i < |log| && log[i].0 == u;
      assert (log + [e])[i].0 == u;
    }
  }

  lemma HistoryExtends(env: Env, pol: Policy, log: seq<(nat, Label)>, t: nat, l: Label, reply: Reply, s: Store)
    requires Feasible(env, pol, Labels(log))
    ensures Ended(env, pol, Sequential(env, pol, log), l, reply, s) ==>
      Feasible(env, pol, Labels(log + [(t, l)])) && Sequential(env, pol, log + [(t, l)]) == s
  {
    LabelsSnoc(log, (t, l));
    assert Labels(log + [(t, l)])[..|log|] == Labels(log);
  }

  /** Releasing the lock appends the finished operation to the sequential history. */
  lemma ReleaseSerialized(env: Env, pol: Policy, a: System, b: System, t: nat)
    requires Serialized(env, pol, a) && a.holder == Some(t) && a.threads[t].pc.AtEnd?
    requires b == System(a.store, None, a.threads[t := Finished(a.threads[t].l, a.threads[t].pc.reply)],
                         a.log + [(t, a.threads[t].l)])
    ensures Serialized(env, pol, b)
  {
    var l, reply := a.threads[t].l, a.threads[t].pc.reply;
    EndIsSequential(env, pol, Sequential(env, pol, a.log), l, a.threads[t].pc, a.store);
    HistoryExtends(env, pol, a.log, t, l, reply, a.store);
    assert !InLog(a.log, t);
    ReleaseLogged(env, pol, a, b, t, l, reply);
    forall u | u in b.threads ensures b.threads[u].Finished? <==> InLog(b.log, u) {
      InLogSnoc(a.log, (t, l), u);
    }
  }

  lemma StepSerialized(env: Env, pol: Policy, a: System, b: System, t: nat)
    requires Serialized(env, pol, a) && ThreadStep(env, pol, a, b, t)
    ensures Serialized(env, pol, b)
  {
    match a.threads[t]
    case Waiting(l) =>
      LogKept(env, pol, a, b, t);
    case Running(l, pc) =>
      if pc.AtEnd? {
        ReleaseSerialized(env, pol, a, b, t);
      } else {
        MicroAdvances(env, pol, Sequential(env, pol, a.log), l, pc, a.store);
        LogKept(env, pol, a, b, t);
      }
    case Reading(_, _, _) =>
      LogKept(env, pol, a, b, t);
  }

  ghost predicate Execution(env: Env, pol: Policy, states: seq<System>, schedule: seq<nat>) {
    && |states| == |schedule| + 1 && Initial(states[0])
    && forall i :: 0 <= i < |schedule| ==> ThreadStep(env, pol, states[i], states[i + 1], schedule[i])
  }

  /** Under every schedule of any number of identifying, erasing, purging and reading threads, every
      reachable system is serialized. */
  lemma {:induction false} EveryExecutionSerializes(env: Env, pol: Policy, states: seq<System>, schedule: seq<nat>)
    requires Execution(env, pol, states, schedule)
    ensures Serialized(env, pol, states[|states| - 1])
  {
    var n := |schedule|;
    if n == 0 {
      InitialSerialized(env, pol, states[0]);
    } else {
      assert Execution(env, pol, states[..n], schedule[..n - 1]);
      EveryExecutionSerializes(env, pol, states[..n], schedule[..n - 1]);
      StepSerialized(env, pol, states[n - 1], states[n], schedule[n - 1]);
    }
  }
}
