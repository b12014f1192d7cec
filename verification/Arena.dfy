/** The bump allocator: any number of threads race on one offset with a load and a compare-and-swap
    that may also fail spuriously. Arithmetic is on 64-bit words, wrap-around included. */
module Arena {
  import opened Bits

  /** `(cur + align - 1) & ~(align - 1)` as the machine computes it. */
  function RoundUp(cur: nat, align: nat): nat
    requires 1 <= align <= WORD
  {
    And((cur + align - 1) % WORD, Not(align - 1))
  }

  /** The end of the block that starts at the rounded-up offset, wrapped to a word. */
  function Next(cur: nat, size: nat, align: nat): nat
    requires 1 <= align <= WORD
  {
    (RoundUp(cur, align) + size) % WORD
  }

  ghost predicate PowerOfTwo(n: nat) {
    exists k: nat :: k <= 63 && n == Pow2(k)
  }

  /** The block [start, start + size) handed to a caller who asked for this alignment. */
  datatype Block = Block(start: nat, size: nat, align: nat)

  datatype Thread = Idle | Trying(size: nat, align: nat, cur: nat)

  /** `granted` lists the blocks in the order of the successful swaps, `refused` says of each null
      answer which request it was and where the offset stood at that moment. */
  datatype Refusal = Refusal(size: nat, align: nat, offset: nat)

  datatype State = State(
    poolSize: nat,
    offset: nat,
    threads: map<nat, Thread>,
    granted: seq<Block>,
    refused: seq<Refusal>)

  datatype Event =
    | Load(t: nat, size: nat, align: nat)
    | Try(t: nat, spurious: bool)

  function Init(poolSize: nat): State {
    State(poolSize, 0, map[], [], [])
  }

  function Step(s: State, e: Event): State {
    match e
    case Load(t, size, align) =>
      if (t in s.threads && s.threads[t].Trying?) || align < 1 || align > WORD then s
      else s.(threads := s.threads[t := Trying(size, align, s.offset)])
    case Try(t, spurious) =>
      if t !in s.threads || s.threads[t].Idle? || s.threads[t].align < 1 || s.threads[t].align > WORD then s
      else
        var r := s.threads[t];
        var next := Next(r.cur, r.size, r.align);
        if next > s.poolSize then
          s.(threads := s.threads[t := Idle], refused := s.refused + [Refusal(r.size, r.align, s.offset)])
        else if s.offset == r.cur && !spurious then
          s.(offset := next, threads := s.threads[t := Idle],
             granted := s.granted + [Block(RoundUp(r.cur, r.align), r.size, r.align)])
        else
          s.(threads := s.threads[t := r.(cur := s.offset)])
  }

  function Run(poolSize: nat, es: seq<Event>): State {
    if es == [] then Init(poolSize) else Step(Run(poolSize, es[..|es| - 1]), es[|es| - 1])
  }

  /** A request that cannot wrap: its alignment is a power of two, and offset, alignment and size
      together stay below 2^64. */
  ghost predicate Sane(poolSize: nat, size: nat, align: nat) {
    PowerOfTwo(align) && poolSize + align - 1 + size < WORD
  }

  ghost predicate SaneEvent(poolSize: nat, e: Event) {
    e.Load? ==> Sane(poolSize, e.size, e.align)
  }

  /** The mask trick is rounding up: the least multiple of `align` that is at least `cur`. */
  lemma RoundUpIsLeastMultiple(cur: nat, align: nat, m: nat)
    requires PowerOfTwo(align) && cur + align - 1 < WORD
    ensures RoundUp(cur, align) % align == 0
    ensures cur <= RoundUp(cur, align) < cur + align
    ensures m >= cur && m % align == 0 ==> RoundUp(cur, align) <= m
  {
    hide RoundUp, PowerOfTwo;
    var x := cur + align - 1;
    RoundUpIsMask(cur, align);
    Quotient(x, align);
    if m >= cur && m % align == 0 && m < RoundUp(cur, align) {
      ModInjective(RoundUp(cur, align), m, align);
    }
  }

  lemma RoundUpIsMask(cur: nat, align: nat)
    requires PowerOfTwo(align) && cur + align - 1 < WORD
    ensures 1 <= align && RoundUp(cur, align) == (cur + align - 1) - (cur + align - 1) % align
  {
    hide And;
    var k: nat :| k <= 63 && align == Pow2(k);
    var x := cur + align - 1;
    Pow2Of64();
    SmallMod(x, WORD);
    AndHigh(x, k, 64);
  }

  lemma Quotient(x: nat, m: nat)
    requires m > 0
    ensures 0 <= x % m < m && x - x % m >= 0 && (x - x % m) % m == 0
  {
    assert x == x / m * m + x % m;
    assert x / m * m >= 0;
    ModUnique(x - x % m, m, x / m, 0);
  }

  lemma RoundUpMonotone(a: nat, b: nat, align: nat)
    requires a <= b && PowerOfTwo(align) && b + align - 1 < WORD
    ensures RoundUp(a, align) <= RoundUp(b, align)
  {
    RoundUpIsLeastMultiple(b, align, 0);
    RoundUpIsLeastMultiple(a, align, RoundUp(b, align));
  }

  function End(bs: seq<Block>): nat {
    if bs == [] then 0 else bs[|bs| - 1].start + bs[|bs| - 1].size
  }

  /** Each block starts at the first aligned address at or after the end of the one before. */
  predicate Tiled(bs: seq<Block>) {
    bs != [] ==>
      var init, b := bs[..|bs| - 1], bs[|bs| - 1];
      Tiled(init) && 1 <= b.align && b.start % b.align == 0 && End(init) <= b.start < End(init) + b.align
  }

  ghost predicate Inv(s: State) {
    && s.poolSize < WORD
    && s.offset <= s.poolSize
    && Tiled(s.granted) && s.offset == End(s.granted)
    && (forall t :: t in s.threads && s.threads[t].Trying? ==>
          s.threads[t].cur <= s.offset && Sane(s.poolSize, s.threads[t].size, s.threads[t].align))
    && (forall i :: 0 <= i < |s.refused| ==>
          var r := s.refused[i];
          && r.offset <= s.offset && Sane(s.poolSize, r.size, r.align)
          && RoundUp(r.offset, r.align) + r.size > s.poolSize)
  }

  lemma NextOfSane(poolSize: nat, cur: nat, size: nat, align: nat)
    requires cur <= poolSize && Sane(poolSize, size, align)
    ensures align >= 1
    ensures Next(cur, size, align) == RoundUp(cur, align) + size
  {
    RoundUpIsLeastMultiple(cur, align, 0);
    SmallMod(RoundUp(cur, align) + size, WORD);
  }

  lemma StepKeepsInv(s: State, e: Event)
    requires Inv(s) && SaneEvent(s.poolSize, e)
    ensures Inv(Step(s, e))
    ensures s.offset <= Step(s, e).offset
  {
    if e.Try? && e.t in s.threads && s.threads[e.t].Trying? {
      var r := s.threads[e.t];
      NextOfSane(s.poolSize, r.cur, r.size, r.align);
      RoundUpIsLeastMultiple(r.cur, r.align, 0);
      RoundUpMonotone(r.cur, s.offset, r.align);
      var s' := Step(s, e);
      if |s'.granted| > |s.granted| {
        assert s'.granted[..|s'.granted| - 1] == s.granted;
      }
    }
  }

  lemma {:induction false} RunInv(poolSize: nat, es: seq<Event>)
    requires poolSize < WORD && forall i :: 0 <= i < |es| ==> SaneEvent(poolSize, es[i])
    ensures Inv(Run(poolSize, es)) && Run(poolSize, es).poolSize == poolSize
    decreases |es|
  {
    if es != [] {
      RunInv(poolSize, es[..|es| - 1]);
      StepKeepsInv(Run(poolSize, es[..|es| - 1]), es[|es| - 1]);
    }
  }

  /** Tiled blocks lie in order, so any two are disjoint, and inside the used part. */
  lemma {:induction false} TiledOrder(bs: seq<Block>, i: nat)
    requires Tiled(bs) && i < |bs|
    ensures bs[i].align >= 1 && bs[i].start % bs[i].align == 0
    ensures bs[i].start + bs[i].size <= End(bs)
    ensures forall j :: i < j < |bs| ==> bs[i].start + bs[i].size <= bs[j].start
    decreases |bs|
  {
    var init := bs[..|bs| - 1];
    if i < |init| {
      TiledOrder(init, i);
      forall j | i < j < |bs|
        ensures bs[i].start + bs[i].size <= bs[j].start
      {
        if j < |init| {
          assert bs[j] == init[j];
        }
      }
    }
  }

  /** In every run of sane requests, by any number of threads: the blocks granted are pairwise
      disjoint, aligned and inside the pool. */
  lemma BlocksAreDisjoint(poolSize: nat, es: seq<Event>, i: nat, j: nat)
    requires poolSize < WORD && forall i :: 0 <= i < |es| ==> SaneEvent(poolSize, es[i])
    requires i < j < |Run(poolSize, es).granted|
    ensures var g := Run(poolSize, es).granted;
      && g[i].start + g[i].size <= g[j].start
      && g[i].align >= 1 && g[i].start % g[i].align == 0
      && g[j].start + g[j].size <= Run(poolSize, es).offset <= poolSize
  {
    RunInv(poolSize, es);
    var s := Run(poolSize, es);
    TiledOrder(s.granted, i);
    TiledOrder(s.granted, j);
  }

  /** A thread is refused only if its request does not fit even at the offset of that moment,
      which may be higher than the one it loaded; and then it never fits again. */
  lemma RefusedOnlyWhenFull(poolSize: nat, es: seq<Event>, i: nat)
    requires poolSize < WORD && forall i :: 0 <= i < |es| ==> SaneEvent(poolSize, es[i])
    requires i < |Run(poolSize, es).refused|
    ensures var s := Run(poolSize, es);
      var r := s.refused[i];
      && 1 <= r.align <= WORD
      && RoundUp(r.offset, r.align) + r.size > poolSize
      && RoundUp(s.offset, r.align) + r.size > poolSize
  {
    RunInv(poolSize, es);
    var s := Run(poolSize, es);
    var r := s.refused[i];
    RoundUpMonotone(r.offset, s.offset, r.align);
  }

  /** The space used is what was asked for plus less than one alignment unit per block. */
  function Requested(bs: seq<Block>): nat {
    if bs == [] then 0 else Requested(bs[..|bs| - 1]) + bs[|bs| - 1].size
  }

  function Padding(bs: seq<Block>): nat {
    if bs == [] then 0
    else Padding(bs[..|bs| - 1]) + (if bs[|bs| - 1].align >= 1 then bs[|bs| - 1].align - 1 else 0)
  }

  lemma {:induction false} TiledSize(bs: seq<Block>)
    requires Tiled(bs)
    ensures Requested(bs) <= End(bs) <= Requested(bs) + Padding(bs)
    decreases |bs|
  {
    if bs != [] {
      TiledSize(bs[..|bs| - 1]);
    }
  }

  /** No byte is lost but to alignment: between resets the used bytes are what was granted plus
      less than one alignment unit per block. */
  lemma UsedBytes(poolSize: nat, es: seq<Event>)
    requires poolSize < WORD && forall i :: 0 <= i < |es| ==> SaneEvent(poolSize, es[i])
    ensures var s := Run(poolSize, es);
      Requested(s.granted) <= s.offset <= Requested(s.granted) + Padding(s.granted)
  {
    RunInv(poolSize, es);
    TiledSize(Run(poolSize, es).granted);
  }

  /** One swap on its own, no request excluded: the block really lies between the old offset and
      the end of the pool exactly when neither sum wrapped. */
  lemma GrantSoundExactlyWithoutWrap(poolSize: nat, cur: nat, size: nat, align: nat)
    requires poolSize < WORD && cur <= poolSize && PowerOfTwo(align) && align <= WORD
    requires Next(cur, size, align) <= poolSize
    ensures (cur <= RoundUp(cur, align) && RoundUp(cur, align) + size <= poolSize)
       <==> (cur + align - 1 < WORD && RoundUp(cur, align) + size < WORD)
  {
    var a := RoundUp(cur, align);
    if cur + align - 1 < WORD {
      RoundUpIsLeastMultiple(cur, align, 0);
      if a + size < WORD {
        SmallMod(a + size, WORD);
      }
    } else {
      WrappedRoundUp(cur, align);
    }
  }

  /** If the sum wraps, rounding "up" lands at zero, below the offset. */
  lemma WrappedRoundUp(cur: nat, align: nat)
    requires cur < WORD && PowerOfTwo(align) && align <= WORD && cur + align - 1 >= WORD
    ensures RoundUp(cur, align) == 0 && cur > 0
  {
    var k: nat :| k <= 63 && align == Pow2(k);
    Pow2Of64();
    Pow2Below(k, 64);
    var x := cur + align - 1 - WORD;
    ModUnique(cur + align - 1, WORD, 1, x);
    AndHigh(x, k, 64);
    SmallMod(x, align);
  }

  /** A thread whose swap failed, because another one moved the offset or for no reason, has loaded the current
      offset; its next try, if undisturbed, is decided: it is granted the first aligned block behind the
      offset, or refused because that does not fit. */
  lemma RetryIsDecided(s: State, t: nat, spurious: bool)
    requires Inv(s) && t in s.threads && s.threads[t].Trying?
    ensures var r, s1 := s.threads[t], Step(s, Try(t, spurious));
      var s2 := Step(s1, Try(t, false));
      s1.threads[t].Trying? ==>
        && s1.offset == s.offset && s1.granted == s.granted && s1.refused == s.refused
        && s1.threads[t].cur == s.offset
        && s2.threads[t].Idle?
        && 1 <= r.align <= WORD
        && (if RoundUp(s.offset, r.align) + r.size <= s.poolSize then
              && s2.granted == s.granted + [Block(RoundUp(s.offset, r.align), r.size, r.align)]
              && s2.offset == RoundUp(s.offset, r.align) + r.size && s2.refused == s.refused
            else
              s2.granted == s.granted && s2.offset == s.offset
              && s2.refused == s.refused + [Refusal(r.size, r.align, s.offset)])
  {
    hide RoundUp, Next;
    var r := s.threads[t];
    NextOfSane(s.poolSize, s.offset, r.size, r.align);
    NextOfSane(s.poolSize, r.cur, r.size, r.align);
  }

  /** One thread asks for a block, undisturbed. */
  function Ask(size: nat, align: nat): seq<Event> { [Load(0, size, align), Try(0, false)] }

  lemma AskAppends(poolSize: nat, es: seq<Event>, size: nat, align: nat)
    requires 1 <= align <= WORD && (0 in Run(poolSize, es).threads ==> Run(poolSize, es).threads[0].Idle?)
    ensures var s, s' := Run(poolSize, es), Run(poolSize, es + Ask(size, align));
      var next := Next(s.offset, size, align);
      && s'.threads == s.threads[0 := Idle]
      && (next <= s.poolSize ==>
            && s'.offset == next && s'.refused == s.refused
            && s'.granted == s.granted + [Block(RoundUp(s.offset, align), size, align)])
      && s'.poolSize == s.poolSize
  {
    hide RoundUp, Next, Run;
    var e1 := es + [Load(0, size, align)];
    RunAppend(poolSize, es, Load(0, size, align));
    RunAppend(poolSize, e1, Try(0, false));
    assert e1 + [Try(0, false)] == es + Ask(size, align);
  }

  lemma RunAppend(poolSize: nat, es: seq<Event>, e: Event)
    ensures Run(poolSize, es + [e]) == Step(Run(poolSize, es), e)
  {
    assert (es + [e])[..|es + [e]| - 1] == es;
  }

  lemma RoundUpExamples()
    ensures RoundUp(0, 8) == 0 && RoundUp(64, 8) == 64
  {
    hide RoundUp;
    assert 8 == Pow2(3);
    RoundUpIsLeastMultiple(0, 8, 0);
    RoundUpIsLeastMultiple(64, 8, 64);
  }

  /** In a pool of 128 bytes, 64 are granted; a request for 2^64 - 64, which cannot fit, wraps: it is granted
      and moves the offset back to zero; and the next request is granted on top of the first. */
  lemma WrappedRequestOverlaps() returns (es: seq<Event>)
    ensures Run(128, es).granted == [Block(0, 64, 8), Block(64, WORD - 64, 8), Block(0, 64, 8)]
    ensures Run(128, es).offset == 64 && Run(128, es).refused == []
  {
    hide RoundUp, Run;
    RoundUpExamples();
    es := NoEvents();
    AskAppends(128, es, 64, 8);
    es := es + Ask(64, 8);
    AskAppends(128, es, WORD - 64, 8);
    es := es + Ask(WORD - 64, 8);
    AskAppends(128, es, 64, 8);
    es := es + Ask(64, 8);
  }

  lemma NoEvents() returns (es: seq<Event>)
    ensures Run(128, es) == Init(128)
  {
    es := [];
  }

  /** The allocator for one caller at a time; `spurious` is the number of times the hardware lets
      the weak compare-and-swap fail for no reason. */
  class ArenaAllocator {
    const poolSize: nat
    var offset: nat
    ghost var granted: seq<Block>

    ghost predicate Valid()
      reads this
    {
      poolSize < WORD && offset <= poolSize && Tiled(granted) && offset == End(granted)
    }

    constructor (poolSize: nat)
      requires poolSize < WORD
      ensures Valid() && this.poolSize == poolSize && granted == []
    {
      this.poolSize, offset, granted := poolSize, 0, [];
    }

    /** Null exactly when the request does not fit; otherwise the block that follows the used
        part. Spurious failures change nothing. */
    method Allocate(size: nat, align: nat, spurious: nat) returns (ok: bool, start: nat)
      requires Valid() && Sane(poolSize, size, align)
      modifies this
      ensures Valid()
      ensures ok <==> exists a :: old(offset) <= a <= poolSize - size && a % align == 0
      ensures ok ==> granted == old(granted) + [Block(start, size, align)]
      ensures !ok ==> granted == old(granted) && offset == old(offset)
    {
      hide RoundUp, PowerOfTwo;
      var cur, failures := offset, spurious;
      RoundUpIsLeastMultiple(cur, align, 0);
      NextOfSane(poolSize, cur, size, align);
      while true
        invariant cur == offset == old(offset) && granted == old(granted)
        decreases failures
      {
        var alignedCur := RoundUp(cur, align);
        var next := (alignedCur + size) % WORD;
        if next > poolSize {
          forall a | old(offset) <= a <= poolSize - size
            ensures a % align != 0
          {
            RoundUpIsLeastMultiple(cur, align, a);
          }
          return false, 0;
        }
        if failures == 0 {
          offset := next;
          granted := granted + [Block(alignedCur, size, align)];
          assert granted[..|granted| - 1] == old(granted);
          assert alignedCur % align == 0 && old(offset) <= alignedCur <= poolSize - size;
          return true, alignedCur;
        }
        failures := failures - 1;
      }
    }

    method UsedBytes() returns (n: nat)
      requires Valid()
      ensures n == if granted == [] then 0 else granted[|granted| - 1].start + granted[|granted| - 1].size
      ensures Requested(granted) <= n <= Requested(granted) + Padding(granted)
    {
      TiledSize(granted);
      n := offset;
    }
  }
}
