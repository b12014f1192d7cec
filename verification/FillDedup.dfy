/** The fill deduplicator: a membership test under a shared lock, then an insertion under the
    exclusive lock. The duplicate counter is a plain integer, and the shared lock lets two threads
    increment it at once. */
module FillDedup {

  datatype Phase =
    | Idle
    | Passed(id: string)              // the fast path did not find the id
    | Counting(id: string, read: nat) // found it; has read the counter, still under the shared lock

  /** One finished call of `try_mark`. */
  datatype Answer = Answer(id: string, isNew: bool)

  /** `stale` counts the stores that overwrote a counter changed since it was read. */
  datatype State = State(
    processed: set<string>,
    duplicates: nat,
    threads: map<nat, Phase>,
    answers: seq<Answer>,
    stale: nat)

  datatype Event =
    | Test(t: nat, id: string) // shared lock, lookup; on a hit also the read of the counter
    | Bump(t: nat)             // the store of the counter, and the answer false
    | Insert(t: nat)           // exclusive lock, insertion

  function Init(): State { State({}, 0, map[], [], 0) }

  predicate SharedLocked(s: State) {
    exists t :: t in s.threads && s.threads[t].Counting?
  }

  function Step(s: State, e: Event): State {
    match e
    case Test(t, id) =>
      if t in s.threads && !s.threads[t].Idle? then s
      else if id in s.processed then s.(threads := s.threads[t := Counting(id, s.duplicates)])
      else s.(threads := s.threads[t := Passed(id)])
    case Bump(t) =>
      if t in s.threads && s.threads[t].Counting? then
        var p := s.threads[t];
        s.(duplicates := p.read + 1,
           threads := s.threads[t := Idle],
           answers := s.answers + [Answer(p.id, false)],
           stale := if p.read == s.duplicates then s.stale else s.stale + 1)
      else s
    case Insert(t) =>
      if t in s.threads && s.threads[t].Passed? && !SharedLocked(s) then
        var id := s.threads[t].id;
        if id in s.processed then
          s.(duplicates := s.duplicates + 1, threads := s.threads[t := Idle],
             answers := s.answers + [Answer(id, false)])
        else
          s.(processed := s.processed + {id}, threads := s.threads[t := Idle],
             answers := s.answers + [Answer(id, true)])
      else s
  }

  function Run(es: seq<Event>): State {
    if es == [] then Init() else Step(Run(es[..|es| - 1]), es[|es| - 1])
  }

  function Rejections(answers: seq<Answer>): nat {
    if answers == [] then 0
    else Rejections(answers[..|answers| - 1]) + (if answers[|answers| - 1].isNew then 0 else 1)
  }

  ghost predicate AnswersOk(s: State) {
    && (forall id :: id in s.processed <==> Answer(id, true) in s.answers)
    && (forall i, j :: 0 <= i < j < |s.answers| && s.answers[i].isNew && s.answers[i].id == s.answers[j].id
          ==> !s.answers[j].isNew)
    && (forall i :: 0 <= i < |s.answers| && !s.answers[i].isNew ==> s.answers[i].id in s.processed)
    && (forall t :: t in s.threads && s.threads[t].Counting? ==> s.threads[t].id in s.processed)
    && (forall i, j :: 0 <= i < j < |s.answers| && s.answers[j].isNew ==> s.answers[i].id != s.answers[j].id)
  }

  ghost predicate CounterOk(s: State) {
    var n := Rejections(s.answers);
    && (s.stale == 0 ==> s.duplicates == n)
    && (s.stale > 0 ==> s.duplicates < n)
    && (forall t :: t in s.threads && s.threads[t].Counting? ==>
          if s.stale == 0 then s.threads[t].read <= n else s.threads[t].read < n)
  }

  lemma RejectionsAppend(answers: seq<Answer>, a: Answer)
    ensures Rejections(answers + [a]) == Rejections(answers) + if a.isNew then 0 else 1
  {
    assert (answers + [a])[..|answers + [a]| - 1] == answers;
  }

  lemma StepKeepsAnswers(s: State, e: Event)
    requires AnswersOk(s)
    ensures AnswersOk(Step(s, e))
  {
    hide SharedLocked;
    var s' := Step(s, e);
    if |s'.answers| > |s.answers| {
      var a := s'.answers[|s.answers|];
      assert s'.answers == s.answers + [a];
      forall i | 0 <= i < |s.answers| && a.isNew
        ensures s.answers[i].id != a.id
      {
        if s.answers[i].isNew {
          assert Answer(s.answers[i].id, true) in s.answers;
        }
      }
    }
  }

  lemma StepKeepsCounter(s: State, e: Event)
    requires CounterOk(s)
    ensures CounterOk(Step(s, e))
  {
    var s' := Step(s, e);
    if |s'.answers| > |s.answers| {
      RejectionsAppend(s.answers, s'.answers[|s.answers|]);
    }
  }

  lemma {:induction false} RunInv(es: seq<Event>)
    ensures AnswersOk(Run(es)) && CounterOk(Run(es))
    decreases |es|
  {
    if es != [] {
      RunInv(es[..|es| - 1]);
      StepKeepsAnswers(Run(es[..|es| - 1]), es[|es| - 1]);
      StepKeepsCounter(Run(es[..|es| - 1]), es[|es| - 1]);
    }
  }

  /** Whatever the interleaving, among all finished calls for one id exactly the first answer is
      "new": later ones, and calls that lost the race to the insertion, are duplicates. */
  lemma FreshExactlyOnce(es: seq<Event>, i: nat)
    requires i < |Run(es).answers|
    ensures var a := Run(es).answers;
      a[i].isNew <==> forall j :: 0 <= j < i ==> a[j].id != a[i].id
  {
    RunInv(es);
    var s := Run(es);
    var a := s.answers;
    if forall j :: 0 <= j < i ==> a[j].id != a[i].id {
      if !a[i].isNew {
        EarlierFresh(es, i);
      }
    }
  }

  /** A step gives at most one answer, and calls duplicate only what was processed before. */
  lemma AnswersGrow(s: State, e: Event)
    requires AnswersOk(s)
    ensures var a, a' := s.answers, Step(s, e).answers;
      && |a| <= |a'| <= |a| + 1
      && a'[..|a|] == a
      && (|a'| == |a| + 1 && !a'[|a|].isNew ==> a'[|a|].id in s.processed)
  {
  }

  /** A duplicate answer has a fresh one for the same id before it. */
  lemma {:induction false} EarlierFresh(es: seq<Event>, i: nat)
    requires i < |Run(es).answers| && !Run(es).answers[i].isNew
    ensures exists j :: 0 <= j < i && Run(es).answers[j] == Answer(Run(es).answers[i].id, true)
    decreases |es|
  {
    hide Step, CounterOk;
    var init := es[..|es| - 1];
    var a, a' := Run(init).answers, Run(es).answers;
    RunInv(init);
    AnswersGrow(Run(init), es[|es| - 1]);
    assert forall j :: 0 <= j < |a| ==> a'[j] == a[j];
    if i < |a| {
      EarlierFresh(init, i);
    } else {
      assert Answer(a'[i].id, true) in a;
    }
  }

  /** The duplicate counter never overstates, and it is right exactly as long as no increment
      overwrote another thread's. */
  lemma CounterExactlyWithoutOverlap(es: seq<Event>)
    ensures var s := Run(es);
      && s.duplicates <= Rejections(s.answers)
      && (s.duplicates == Rejections(s.answers) <==> s.stale == 0)
  {
    RunInv(es);
  }

  /** The number of ids remembered is the number of calls that answered "new". */
  lemma {:induction false} UniqueFillsCountsNew(es: seq<Event>)
    ensures |Run(es).processed| + Rejections(Run(es).answers) == |Run(es).answers|
    decreases |es|
  {
    hide Step;
    if es != [] {
      UniqueFillsCountsNew(es[..|es| - 1]);
      StepCountsNew(Run(es[..|es| - 1]), es[|es| - 1]);
    }
  }

  lemma StepCountsNew(s: State, e: Event)
    ensures var s' := Step(s, e);
      |s'.processed| - |s.processed| + Rejections(s'.answers) - Rejections(s.answers) == |s'.answers| - |s.answers|
  {
    hide Rejections;
    var s' := Step(s, e);
    if |s'.answers| > |s.answers| {
      RejectionsAppend(s.answers, s'.answers[|s.answers|]);
    }
  }

  /** In any state, two idle threads that test a known id at the same time lose one increment. */
  lemma LostIncrement(s: State, t: nat, u: nat, id: string)
    requires t != u && id in s.processed
    requires (t in s.threads ==> s.threads[t].Idle?) && (u in s.threads ==> s.threads[u].Idle?)
    ensures var s' := Step(Step(Step(Step(s, Test(t, id)), Test(u, id)), Bump(t)), Bump(u));
      && s'.duplicates == s.duplicates + 1
      && Rejections(s'.answers) == Rejections(s.answers) + 2
  {
    var s1 := Step(s, Test(t, id));
    var s2 := Step(s1, Test(u, id));
    assert s2.threads[t] == Counting(id, s.duplicates) && s2.threads[u] == Counting(id, s.duplicates);
    var s3 := Step(s2, Bump(t));
    assert s3.answers == s.answers + [Answer(id, false)] && s3.threads[u] == s2.threads[u];
    RejectionsAppend(s.answers, Answer(id, false));
    RejectionsAppend(s3.answers, Answer(id, false));
  }

  class FillDeduplicator {
    var processed: set<string>
    var duplicates: nat

    constructor ()
      ensures processed == {} && duplicates == 0
    {
      processed, duplicates := {}, 0;
    }

    /** True exactly for an id not seen before, which is remembered from now on. */
    method TryMark(id: string) returns (isNew: bool)
      modifies this
      ensures isNew <==> id !in old(processed)
      ensures processed == old(processed) + {id}
      ensures duplicates == old(duplicates) + if isNew then 0 else 1
    {
      if id in processed {
        duplicates := duplicates + 1;
        return false;
      }
      processed := processed + {id};
      return true;
    }
  }
}
