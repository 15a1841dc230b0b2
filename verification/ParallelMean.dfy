// The mean of a file of 128-bit numbers, taken by threads that fetch chunks of it under a lock and
// keep running means (lab3/main.c), over exact numbers.
module ParallelMean {
  import opened HexCodec
  import opened Naturals

  const RECORD := 33
  const UNSIGNED := 0x1_0000_0000
  const INT_MAX := 0x7FFF_FFFF

  // The inner loop finds record i at the offset 33 * i, computed as an int: so many records have one.
  const INDEXED := 65075263

  // The shortest read that has a record without one.
  const LONG_READ := 2147483712

  // ---- The program's own arithmetic ----

  // How many whole records there are in so many bytes.
  function Records(bytes: nat): nat { bytes / RECORD }

  predicate Aligned(offset: nat) { offset % RECORD == 0 }

  // What an unsigned int keeps of a read count.
  function ReadCount(len: nat): nat { len % UNSIGNED }

  // How many records of a chunk can be got at.
  function Reached(got: nat): nat { Min(Records(got), INDEXED) }

  lemma OffsetsFit(i: nat)
    ensures RECORD * i <= INT_MAX <==> i < INDEXED
  {
  }

  // max_threads and max_memory are positive once the arguments have been checked.
  function ThreadMemory(maxMemory: nat, maxThreads: nat): nat
    requires maxThreads > 0
  {
    maxMemory / maxThreads - maxMemory / maxThreads % RECORD
  }

  // A chunk is a whole number of records, and the largest that fits.
  lemma ChunksHoldRecords(maxMemory: nat, maxThreads: nat)
    requires maxThreads > 0
    ensures var m := ThreadMemory(maxMemory, maxThreads);
            m % RECORD == 0 && m <= maxMemory / maxThreads < m + RECORD && (m == 0 <==> maxMemory / maxThreads < RECORD)
  {
  }

  datatype Mean = Mean(res: real, count: nat)

  function Absorb(m: Mean, t: nat): Mean {
    var c := m.count + 1;
    Mean(m.res * (1.0 - 1.0 / c as real) + t as real / c as real, c)
  }

  // What a running mean stands for.
  function Share(m: Mean): real { m.res * m.count as real }

  // The 32 digits of record i.
  function Digits(buf: string, i: nat): string {
    if RECORD * i + DIGITS <= |buf| then buf[RECORD * i..RECORD * i + DIGITS] else ""
  }

  function AbsorbAll(m: Mean, buf: string, n: nat): Mean {
    if n == 0 then m else Absorb(AbsorbAll(m, buf, n - 1), ValueOf(Digits(buf, n - 1)))
  }

  // The inner loop of number_worker.  ok == false: the offset of the next record leaves int.
  method Digest(buf: string, readCount: nat, res0: real, count0: nat) returns (res: real, count: nat, ok: bool)
    requires readCount <= |buf| && readCount < UNSIGNED
    ensures ok <==> readCount < LONG_READ
    ensures Mean(res, count) == AbsorbAll(Mean(res0, count0), buf, Reached(readCount))
  {
    hide AbsorbAll, Absorb, ValueOf, Digits, Records;
    res, count, ok := res0, count0, true;
    AbsorbNone(Mean(res0, count0), buf);
    ReachedWhole(readCount);
    for i := 0 to Records(readCount)
      invariant i <= INDEXED && Mean(res, count) == AbsorbAll(Mean(res0, count0), buf, i)
    {
      OffsetsFit(i);
      if RECORD * i > INT_MAX {
        ok := false;
        return;
      }
      DigitsInside(buf, readCount, i);
      var tmp := HexToInt128(buf[RECORD * i..]);
      AbsorbNext(Mean(res0, count0), buf, i, res, tmp);
      count := count + 1;
      res := res * (1.0 - 1.0 / count as real) + tmp as real / count as real;
    }
  }

  lemma ReachedWhole(got: nat)
    ensures Records(got) <= INDEXED <==> got < LONG_READ
  {
  }

  lemma DigitsInside(buf: string, readCount: nat, i: nat)
    requires readCount <= |buf| && i < Records(readCount)
    ensures RECORD * i + DIGITS <= |buf| && buf[RECORD * i..][..DIGITS] == Digits(buf, i)
  {
    assert RECORD * (i + 1) <= readCount;
  }

  lemma {:induction false} AbsorbNone(m: Mean, buf: string)
    ensures AbsorbAll(m, buf, 0) == m
  {
  }

  lemma AbsorbNext(m: Mean, buf: string, i: nat, res: real, tmp: nat)
    requires tmp == ValueOf(Digits(buf, i)) && AbsorbAll(m, buf, i).res == res
    ensures var c := AbsorbAll(m, buf, i).count + 1;
            AbsorbAll(m, buf, i + 1) == Mean(res * (1.0 - 1.0 / c as real) + tmp as real / c as real, c)
  {
    hide ValueOf, Digits;
  }

  // A running mean times its count is the sum so far.
  lemma AbsorbAddsUp(m: Mean, t: nat)
    ensures Share(Absorb(m, t)) == Share(m) + t as real
  {
    var c := (m.count + 1) as real;
    var a, b := 1.0 - 1.0 / c, t as real / c;
    assert (1.0 / c) * c == 1.0 && b * c == t as real;
    assert a * c == c - 1.0;
    assert (m.res * a) * c == m.res * (a * c);
    assert (m.res * a + b) * c == (m.res * a) * c + b * c;
  }

  // ---- The threads as a system ----

  // Undefined: the int offset has overflowed, and nothing can be said of the program any more.
  datatype Phase = Ready | Holding(from: nat, buffer: string, got: nat, next: nat) | Finished | Undefined

  // `taken` records which records of the file went into the mean; the program does not have it.
  datatype Worker = Worker(phase: Phase, mean: Mean, taken: seq<nat>)

  datatype Sys = Sys(pos: nat, workers: seq<Worker>)

  // One locked read, one record, or the test at the end of the loop.
  function WorkerStep(file: string, max: nat, pos: nat, w: Worker): (nat, Worker)
    requires pos <= |file|
  {
    match w.phase
    case Ready =>
      var len := Min(max, |file| - pos);
      (pos + len, w.(phase := Holding(pos, file[pos..pos + len], ReadCount(len), 0)))
    case Holding(from, buffer, got, next) =>
      if next < Records(got) && RECORD * next > INT_MAX then (pos, w.(phase := Undefined))
      else if next < Records(got) then
        (pos, Worker(Holding(from, buffer, got, next + 1), Absorb(w.mean, ValueOf(Digits(buffer, next))),
                     w.taken + [Records(from) + next]))
      else (pos, w.(phase := if got < max then Finished else Ready))
    case _ => (pos, w)
  }

  function Step(file: string, max: nat, s: Sys, i: nat): Sys
    requires s.pos <= |file| && i < |s.workers|
  {
    var r := WorkerStep(file, max, s.pos, s.workers[i]);
    Sys(r.0, s.workers[i := r.1])
  }

  function Fresh(n: nat): (ws: seq<Worker>)
    ensures |ws| == n && forall i :: 0 <= i < n ==> ws[i] == Worker(Ready, Mean(0.0, 0), [])
  {
    if n == 0 then [] else Fresh(n - 1) + [Worker(Ready, Mean(0.0, 0), [])]
  }

  // ---- What the workers hold ----

  // Which records, how many, and their sum.
  datatype Tally = Tally(which: multiset<nat>, count: nat, sum: real)

  const ZERO := Tally(multiset{}, 0, 0.0)

  function Plus(a: Tally, b: Tally): Tally { Tally(a.which + b.which, a.count + b.count, a.sum + b.sum) }

  function One(file: string, r: nat): Tally { Tally(multiset{r}, 1, ValueOf(Digits(file, r)) as real) }

  function TallyOf(file: string, rs: seq<nat>): Tally {
    if rs == [] then ZERO else Plus(TallyOf(file, rs[..|rs| - 1]), One(file, rs[|rs| - 1]))
  }

  function Pending(p: Phase): seq<nat> {
    if p.Holding? then Range(Records(p.from) + p.next, Records(p.from) + Reached(p.got)) else []
  }

  function Held(file: string, w: Worker): Tally { Plus(TallyOf(file, w.taken), TallyOf(file, Pending(w.phase))) }

  function AllHeld(file: string, ws: seq<Worker>): Tally {
    if ws == [] then ZERO else Plus(Held(file, ws[0]), AllHeld(file, ws[1..]))
  }

  lemma PlusLaws(a: Tally, b: Tally, c: Tally)
    ensures Plus(a, b) == Plus(b, a) && Plus(Plus(a, b), c) == Plus(a, Plus(b, c)) && Plus(a, ZERO) == a
  {
    assert a.which + b.which == b.which + a.which;
    assert (a.which + b.which) + c.which == a.which + (b.which + c.which);
    assert a.which + multiset{} == a.which;
  }

  lemma {:induction false} TallyAppend(file: string, a: seq<nat>, b: seq<nat>)
    ensures TallyOf(file, a + b) == Plus(TallyOf(file, a), TallyOf(file, b))
  {
    hide One, Plus;
    if b == [] {
      assert a + b == a;
      PlusLaws(TallyOf(file, a), ZERO, ZERO);
    } else {
      var less, r := b[..|b| - 1], One(file, b[|b| - 1]);
      assert (a + b)[..|a + b| - 1] == a + less;
      TallyAppend(file, a, less);
      PlusLaws(TallyOf(file, a), TallyOf(file, less), r);
    }
  }

  // ---- The invariant ----

  ghost predicate WorkerOk(file: string, max: nat, pos: nat, w: Worker) {
    && pos <= |file| && w.mean.count == |w.taken| && Share(w.mean) == TallyOf(file, w.taken).sum
    && match w.phase
       case Ready => true
       case Holding(from, buffer, got, next) =>
         && from + |buffer| <= pos && buffer == file[from..from + |buffer|] && got == |buffer| <= max
         && (Aligned(from) || got == 0) && next <= Records(got) && (got < max ==> pos == |file|)
         && got < LONG_READ
       case Finished => pos == |file|
       case Undefined => false
  }

  ghost predicate Inv(file: string, max: nat, s: Sys) {
    && s.pos <= |file| && (Aligned(s.pos) || s.pos == |file|)
    && (forall i :: 0 <= i < |s.workers| ==> WorkerOk(file, max, s.pos, s.workers[i]))
    && AllHeld(file, s.workers) == TallyOf(file, Range(0, Records(s.pos)))
  }

  // What main hands to its threads: a positive number of whole records.
  predicate ChunkSize(max: nat) { max > 0 && Aligned(max) }

  // No read of the file can return a record without an int offset.
  predicate ShortReads(file: string, max: nat) { Min(max, |file|) < LONG_READ }

  predicate GoodChunk(file: string, max: nat) { ChunkSize(max) && ShortReads(file, max) }

  lemma {:induction false} TallyCounts(file: string, rs: seq<nat>)
    ensures TallyOf(file, rs).count == |rs| && TallyOf(file, rs).which == multiset(rs)
  {
    if rs != [] {
      TallyCounts(file, rs[..|rs| - 1]);
      assert rs == rs[..|rs| - 1] + [rs[|rs| - 1]];
    }
  }

  lemma WholeRecords(from: nat, len: nat, i: nat)
    requires Aligned(from) && i < Records(len)
    ensures from == RECORD * Records(from) && RECORD * i + RECORD <= len
  {
  }

  lemma SliceOfSlice(file: string, from: nat, len: nat, a: nat)
    requires from + len <= |file| && a + DIGITS <= len
    ensures file[from..from + len][a..a + DIGITS] == file[from + a..from + a + DIGITS]
  {
    var s, t := file[from..from + len][a..a + DIGITS], file[from + a..from + a + DIGITS];
    assert |s| == |t| && forall i :: 0 <= i < |s| ==> s[i] == t[i];
  }

  lemma SameDigits(file: string, from: nat, len: nat, i: nat)
    requires from + len <= |file| && Aligned(from) && i < Records(len)
    ensures Digits(file[from..from + len], i) == Digits(file, Records(from) + i)
  {
    var a := RECORD * i;
    WholeRecords(from, len, i);
    hide Records, Aligned;
    var b := RECORD * (Records(from) + i);
    assert b == from + a;
    SliceOfSlice(file, from, len, a);
  }

  lemma {:induction false} TallyOne(file: string, rs: seq<nat>, r: nat)
    ensures TallyOf(file, rs + [r]) == Plus(TallyOf(file, rs), One(file, r))
  {
    assert (rs + [r])[..|rs|] == rs;
  }

  // The first of the pending records moves to the taken ones.
  lemma MoveOne(file: string, taken: seq<nat>, r: nat, top: nat)
    requires r < top
    ensures Plus(TallyOf(file, taken + [r]), TallyOf(file, Range(r + 1, top)))
            == Plus(TallyOf(file, taken), TallyOf(file, Range(r, top)))
  {
    hide TallyOf, Range, One, Plus;
    TallyOne(file, taken, r);
    RangeSplit(r, r + 1, top);
    RangeAlone(r);
    TallyAppend(file, [r], Range(r + 1, top));
    TallyOne(file, [], r);
    TallyNone(file);
    assert [] + [r] == [r];
    PlusLaws(ZERO, One(file, r), ZERO);
    PlusLaws(One(file, r), ZERO, ZERO);
    PlusLaws(TallyOf(file, taken), One(file, r), TallyOf(file, Range(r + 1, top)));
  }

  lemma {:induction false} MeanGrows(file: string, m: Mean, taken: seq<nat>, r: nat)
    requires m.count == |taken| && Share(m) == TallyOf(file, taken).sum
    ensures var m' := Absorb(m, ValueOf(Digits(file, r)));
            m'.count == |taken + [r]| && Share(m') == TallyOf(file, taken + [r]).sum
  {
    hide ValueOf, TallyOf, Absorb, Digits, Share;
    AbsorbAddsUp(m, ValueOf(Digits(file, r)));
    AbsorbCounts(m, ValueOf(Digits(file, r)));
    TallyOne(file, taken, r);
  }

  // Taking one record changes nothing in what the worker holds altogether.
  lemma ConsumeKeeps(file: string, max: nat, pos: nat, w: Worker)
    requires pos <= |file| && WorkerOk(file, max, pos, w) && w.phase.Holding? && w.phase.next < Records(w.phase.got)
    ensures var w' := WorkerStep(file, max, pos, w).1;
            WorkerOk(file, max, pos, w') && Held(file, w') == Held(file, w)
  {
    hide ValueOf, TallyOf, Absorb, Digits, Records, Aligned, Plus, Range, Share;
    var p := w.phase;
    NoRecords();
    ReachedWhole(p.got);
    OffsetsFit(p.next);
    SameDigits(file, p.from, |p.buffer|, p.next);
    MeanGrows(file, w.mean, w.taken, Records(p.from) + p.next);
    MoveOne(file, w.taken, Records(p.from) + p.next, Records(p.from) + Records(p.got));
  }

  lemma NoRecords()
    ensures Records(0) == 0
  {
  }

  lemma AbsorbCounts(m: Mean, t: nat)
    ensures Absorb(m, t).count == m.count + 1
  {
  }

  lemma {:induction false} TallyNone(file: string)
    ensures TallyOf(file, []) == ZERO
  {
  }

  lemma ChunkArithmetic(size: nat, max: nat, pos: nat)
    requires ChunkSize(max) && Min(max, size) < LONG_READ && pos <= size && (Aligned(pos) || pos == size)
    ensures var len := Min(max, size - pos);
            && ReadCount(len) == len < LONG_READ && Reached(len) == Records(len)
            && Records(pos + len) == Records(pos) + Records(len)
            && (Aligned(pos) || len == 0) && (Aligned(pos + len) || pos + len == size)
               && (len < max ==> pos + len == size)
  {
  }

  // A read adds the records of the chunk to what the worker holds.
  lemma ReadKeeps(file: string, max: nat, pos: nat, w: Worker)
    requires GoodChunk(file, max) && pos <= |file| && (Aligned(pos) || pos == |file|)
    requires WorkerOk(file, max, pos, w) && w.phase.Ready?
    ensures Advanced(file, max, pos, w)
  {
    hide TallyOf, Range, ChunkSize, Aligned, Records, ReadCount, Plus;
    var len := Min(max, |file| - pos);
    ChunkArithmetic(|file|, max, pos);
    TallyNone(file);
    PlusLaws(TallyOf(file, w.taken), ZERO, ZERO);
  }

  lemma {:induction false} HeldUpdate(file: string, ws: seq<Worker>, i: nat, w: Worker, more: Tally)
    requires i < |ws| && Held(file, w) == Plus(Held(file, ws[i]), more)
    ensures AllHeld(file, ws[i := w]) == Plus(AllHeld(file, ws), more)
  {
    hide Held, Plus;
    var ws' := ws[i := w];
    if i == 0 {
      assert ws'[1..] == ws[1..];
      var rest := AllHeld(file, ws[1..]);
      PlusLaws(Held(file, ws[0]), more, rest);
      PlusLaws(more, rest, ZERO);
      PlusLaws(Held(file, ws[0]), rest, more);
    } else {
      assert ws'[1..] == ws[1..][i - 1 := w];
      HeldUpdate(file, ws[1..], i - 1, w, more);
      PlusLaws(Held(file, ws[0]), AllHeld(file, ws[1..]), more);
    }
  }

  lemma StillOk(file: string, max: nat, pos: nat, pos': nat, w: Worker)
    requires WorkerOk(file, max, pos, w) && pos <= pos' <= |file|
    ensures WorkerOk(file, max, pos', w)
  {
    hide TallyOf, Records, Aligned;
  }

  // What a step leaves of one worker, and what it adds to its holdings.
  ghost predicate Advanced(file: string, max: nat, pos: nat, w: Worker)
    requires pos <= |file|
  {
    var r := WorkerStep(file, max, pos, w);
    && WorkerOk(file, max, r.0, r.1) && pos <= r.0 <= |file|
    && (Aligned(r.0) || r.0 == |file|) && Records(pos) <= Records(r.0)
    && Held(file, r.1) == Plus(Held(file, w), TallyOf(file, Range(Records(pos), Records(r.0))))
  }

  lemma WorkerKeeps(file: string, max: nat, pos: nat, w: Worker)
    requires GoodChunk(file, max) && pos <= |file| && (Aligned(pos) || pos == |file|) && WorkerOk(file, max, pos, w)
    ensures Advanced(file, max, pos, w)
  {
    hide TallyOf, Absorb, ValueOf, Digits, Plus, Records, Aligned, Range, GoodChunk, ReadCount, Reached;
    if w.phase.Ready? {
      ReadKeeps(file, max, pos, w);
    } else {
      TallyNone(file);
      RangeEmpty(Records(pos), Records(pos));
      PlusLaws(Held(file, w), ZERO, ZERO);
      if w.phase.Holding? {
        NoRecords();
        WholeReach(w.phase.got);
        if w.phase.next < Records(w.phase.got) {
          ConsumeKeeps(file, max, pos, w);
        } else {
          RangeEmpty(Records(w.phase.from) + w.phase.next, Records(w.phase.from) + w.phase.next);
        }
      }
    }
  }

  lemma WholeReach(got: nat)
    requires got < LONG_READ
    ensures Reached(got) == Records(got)
  {
  }

  lemma StepKeeps(file: string, max: nat, s: Sys, i: nat)
    requires GoodChunk(file, max) && Inv(file, max, s) && i < |s.workers|
    ensures Inv(file, max, Step(file, max, s, i))
  {
    hide WorkerOk, WorkerStep, Held, AllHeld, TallyOf, Range, Plus, GoodChunk, Records, Aligned;
    var w := s.workers[i];
    var r := WorkerStep(file, max, s.pos, w);
    WorkerKeeps(file, max, s.pos, w);
    HeldUpdate(file, s.workers, i, r.1, TallyOf(file, Range(Records(s.pos), Records(r.0))));
    RangeSplit(0, Records(s.pos), Records(r.0));
    TallyAppend(file, Range(0, Records(s.pos)), Range(Records(s.pos), Records(r.0)));
    var ws := s.workers[i := r.1];
    forall j | 0 <= j < |ws|
      ensures WorkerOk(file, max, r.0, ws[j])
    {
      if j != i {
        StillOk(file, max, s.pos, r.0, s.workers[j]);
      }
    }
  }

  lemma FreshRest(n: nat)
    requires n > 0
    ensures Fresh(n)[1..] == Fresh(n - 1) && Fresh(n)[0] == Worker(Ready, Mean(0.0, 0), [])
  {
    hide Fresh;
    var a, b := Fresh(n)[1..], Fresh(n - 1);
    assert |a| == |b| && forall i :: 0 <= i < |a| ==> a[i] == b[i];
  }

  lemma {:induction false} FreshHolds(file: string, n: nat)
    ensures AllHeld(file, Fresh(n)) == ZERO
    decreases n
  {
    hide One, ValueOf, Absorb, TallyOf, Plus, Records, Range, Fresh;
    if n > 0 {
      FreshRest(n);
      FreshHolds(file, n - 1);
      TallyNone(file);
      PlusLaws(ZERO, ZERO, ZERO);
    }
  }

  lemma {:induction false} StartOk(file: string, max: nat, threads: nat)
    ensures Inv(file, max, Sys(0, Fresh(threads)))
  {
    FreshHolds(file, threads);
    RangeEmpty(0, 0);
  }

  // ---- Every schedule ----

  ghost predicate Crashed(ws: seq<Worker>) { exists i :: 0 <= i < |ws| && ws[i].phase.Undefined? }

  // The threads take steps in any order, until the program has become undefined.
  ghost predicate Schedule(file: string, max: nat, s: Sys, steps: seq<nat>)
    requires s.pos <= |file|
    decreases |steps|
  {
    steps == [] ||
    (&& !Crashed(s.workers) && steps[0] < |s.workers| && !s.workers[steps[0]].phase.Finished?
     && Schedule(file, max, Step(file, max, s, steps[0]), steps[1..]))
  }

  ghost function Run(file: string, max: nat, s: Sys, steps: seq<nat>): Sys
    requires s.pos <= |file| && Schedule(file, max, s, steps)
    decreases |steps|
  {
    if steps == [] then s else Run(file, max, Step(file, max, s, steps[0]), steps[1..])
  }

  // How many more steps a worker can take, not counting those that reading on brings.
  function Left(max: nat, w: Worker): nat {
    match w.phase
    case Ready => 2
    case Holding(_, _, got, next) =>
      (if next < Records(got) then Records(got) - next else 0) + 1 + (if got < max then 0 else 2)
    case _ => 0
  }

  function AllLeft(max: nat, ws: seq<Worker>): nat { if ws == [] then 0 else Left(max, ws[0]) + AllLeft(max, ws[1..]) }

  lemma {:induction false} LeftUpdate(max: nat, ws: seq<Worker>, i: nat, w: Worker)
    requires i < |ws|
    ensures AllLeft(max, ws[i := w]) + Left(max, ws[i]) == AllLeft(max, ws) + Left(max, w)
  {
    hide Left;
    var ws' := ws[i := w];
    if i == 0 {
      assert ws'[1..] == ws[1..];
    } else {
      assert ws'[1..] == ws[1..][i - 1 := w];
      LeftUpdate(max, ws[1..], i - 1, w);
    }
  }

  lemma StepSpends(file: string, max: nat, pos: nat, w: Worker)
    requires ChunkSize(max) && pos <= |file| && !w.phase.Finished? && !w.phase.Undefined?
    ensures var r := WorkerStep(file, max, pos, w);
            Left(max, r.1) + (|file| - r.0) < Left(max, w) + (|file| - pos)
  {
    hide Absorb, Digits, ValueOf;
    if w.phase.Ready? {
      ReadSpends(max, Min(max, |file| - pos));
    }
  }

  lemma ReadSpends(max: nat, len: nat)
    requires ChunkSize(max) && len <= max
    ensures var got := ReadCount(len); Records(got) + 1 + (if got < max then 0 else 2) < 2 + len
  {
  }

  lemma {:induction false} FreshLeft(max: nat, n: nat)
    ensures AllLeft(max, Fresh(n)) == 2 * n
    decreases n
  {
    if n > 0 {
      FreshRest(n);
      FreshLeft(max, n - 1);
    }
  }

  // However large the chunks are, the threads come to an end.
  lemma {:induction false} RunSpends(file: string, max: nat, s: Sys, steps: seq<nat>)
    requires ChunkSize(max) && s.pos <= |file| && Schedule(file, max, s, steps)
    ensures var t := Run(file, max, s, steps);
            && t.pos <= |file| && |t.workers| == |s.workers|
            && |steps| + AllLeft(max, t.workers) + (|file| - t.pos) <= AllLeft(max, s.workers) + (|file| - s.pos)
    decreases |steps|
  {
    hide ChunkSize, WorkerStep, Left;
    if steps != [] {
      var i := steps[0];
      StepSpends(file, max, s.pos, s.workers[i]);
      LeftUpdate(max, s.workers, i, WorkerStep(file, max, s.pos, s.workers[i]).1);
      StepInside(file, max, s.pos, s.workers[i]);
      RunSpends(file, max, Step(file, max, s, i), steps[1..]);
    }
  }

  lemma StepInside(file: string, max: nat, pos: nat, w: Worker)
    requires pos <= |file|
    ensures pos <= WorkerStep(file, max, pos, w).0 <= |file|
  {
  }

  lemma {:induction false} RunKeeps(file: string, max: nat, s: Sys, steps: seq<nat>)
    requires GoodChunk(file, max) && Inv(file, max, s) && Schedule(file, max, s, steps)
    ensures Inv(file, max, Run(file, max, s, steps))
    decreases |steps|
  {
    hide GoodChunk, WorkerStep, WorkerOk, AllHeld, TallyOf, Range;
    if steps != [] {
      StepKeeps(file, max, s, steps[0]);
      RunKeeps(file, max, Step(file, max, s, steps[0]), steps[1..]);
    }
  }

  // ---- Chunks with records out of reach ----

  // Record r is not part of anybody's mean, nor of anybody's buffer as far as it will be looked at.
  ghost predicate Skips(w: Worker, r: nat) { r !in w.taken && r !in Pending(w.phase) }

  // Nobody has read yet, or the first chunk has been read and record r of it is lost.
  ghost predicate Lost(s: Sys, first: nat, r: nat) {
    && (s.pos == 0 || s.pos >= first)
    && (forall i :: 0 <= i < |s.workers| ==> Skips(s.workers[i], r))
    && (s.pos == 0 ==> forall i :: 0 <= i < |s.workers| ==> !s.workers[i].phase.Holding?)
  }

  // The first record of the first read that no offset leads to.
  function FirstLost(file: string, max: nat): nat { Reached(ReadCount(Min(max, |file|))) }

  lemma LostWorker(file: string, max: nat, pos: nat, w: Worker, r: nat)
    requires pos <= |file| && Skips(w, r)
    requires w.phase.Ready? ==> (pos == 0 && r >= FirstLost(file, max)) || r < Records(pos)
    ensures Skips(WorkerStep(file, max, pos, w).1, r)
  {
    hide Absorb, ValueOf, Digits, Range;
    match w.phase
    case Ready =>
      var len := Min(max, |file| - pos);
      NothingBefore(0);
      InRange(Records(pos) + 0, Records(pos) + Reached(ReadCount(len)), r);
    case Holding(from, buffer, got, next) =>
      OffsetsFit(next);
      InRange(Records(from) + next, Records(from) + Reached(got), r);
      InRange(Records(from) + next + 1, Records(from) + Reached(got), r);
    case _ =>
  }

  lemma NothingBefore(pos: nat)
    ensures pos < RECORD ==> Records(pos) == 0
  {
  }

  lemma LostStep(file: string, max: nat, s: Sys, i: nat, r: nat)
    requires max > 0 && s.pos <= |file| && i < |s.workers| && Lost(s, Min(max, |file|), r)
    requires FirstLost(file, max) <= r < Records(Min(max, |file|))
    ensures Lost(Step(file, max, s, i), Min(max, |file|), r)
  {
    hide WorkerStep, Skips;
    var w := s.workers[i];
    if s.pos > 0 {
      MoreRecords(Min(max, |file|), s.pos);
    }
    LostWorker(file, max, s.pos, w, r);
    ReadsOn(file, max, s.pos, w);
  }

  lemma MoreRecords(a: nat, b: nat)
    requires a <= b
    ensures Records(a) <= Records(b)
  {
  }

  // Reading at the start of the file takes the first chunk; other steps read nothing.
  lemma ReadsOn(file: string, max: nat, pos: nat, w: Worker)
    requires max > 0 && pos <= |file|
    ensures var r := WorkerStep(file, max, pos, w);
            && (if w.phase.Ready? then r.0 == pos + Min(max, |file| - pos) else r.0 == pos)
            && (!w.phase.Ready? && !w.phase.Holding? ==> !r.1.phase.Holding?)
  {
    hide Absorb, ValueOf, Digits;
  }

  lemma {:induction false} LostRun(file: string, max: nat, s: Sys, steps: seq<nat>, r: nat)
    requires max > 0 && s.pos <= |file| && Schedule(file, max, s, steps) && Lost(s, Min(max, |file|), r)
    requires FirstLost(file, max) <= r < Records(Min(max, |file|))
    ensures Lost(Run(file, max, s, steps), Min(max, |file|), r)
    decreases |steps|
  {
    hide WorkerStep, Lost;
    if steps != [] {
      LostStep(file, max, s, steps[0], r);
      StepInside(file, max, s.pos, s.workers[steps[0]]);
      LostRun(file, max, Step(file, max, s, steps[0]), steps[1..], r);
    }
  }

  // The records of a read can all be got at exactly if it is short enough for an int offset.
  lemma LongReadsReachLess(len: nat)
    ensures Reached(ReadCount(len)) < Records(len) <==> len >= LONG_READ
  {
  }

  // ---- Putting the means together ----

  function Counts(ws: seq<Worker>): nat { if ws == [] then 0 else Counts(ws[..|ws| - 1]) + ws[|ws| - 1].mean.count }

  function Weighted(ws: seq<Worker>, count: nat): real
    requires count > 0
  {
    if ws == [] then 0.0
    else
      var m := ws[|ws| - 1].mean;
      Weighted(ws[..|ws| - 1], count) + m.res * (m.count as real / count as real)
  }

  // The two loops at the end of main; with nothing counted at all the program divides by zero.
  method Combine(ws: seq<Worker>) returns (result: real, count: nat)
    ensures count == Counts(ws) && (count > 0 ==> result == Weighted(ws, count))
  {
    result, count := 0.0, 0;
    for i := 0 to |ws|
      invariant count == Counts(ws[..i])
    {
      assert ws[..i + 1][..i] == ws[..i];
      count := count + ws[i].mean.count;
    }
    assert ws[..|ws|] == ws;
    if count == 0 {
      return;
    }
    for i := 0 to |ws|
      invariant result == Weighted(ws[..i], count)
    {
      assert ws[..i + 1][..i] == ws[..i];
      result := result + ws[i].mean.res * (ws[i].mean.count as real / count as real);
    }
  }

  // The sum of what the workers' means stand for.
  function Sums(ws: seq<Worker>): real {
    if ws == [] then 0.0
    else Sums(ws[..|ws| - 1]) + Share(ws[|ws| - 1].mean)
  }

  lemma {:induction false} WeightedIsMean(ws: seq<Worker>, count: nat)
    requires count > 0
    ensures Weighted(ws, count) * count as real == Sums(ws)
  {
    if ws != [] {
      var m := ws[|ws| - 1].mean;
      var less := Weighted(ws[..|ws| - 1], count);
      WeightedIsMean(ws[..|ws| - 1], count);
      ShareTimesCount(m.res, m.count as real, count as real);
      Distribute(less, m.res * (m.count as real / count as real), count as real);
    }
  }

  lemma ShareTimesCount(res: real, part: real, count: real)
    requires count > 0.0
    ensures (res * (part / count)) * count == res * part
  {
    assert (part / count) * count == part;
    assert (res * (part / count)) * count == res * ((part / count) * count);
  }

  lemma Distribute(a: real, b: real, c: real)
    ensures (a + b) * c == a * c + b * c
  {
  }

  function AllTaken(ws: seq<Worker>): multiset<nat> {
    if ws == [] then multiset{} else multiset(ws[0].taken) + AllTaken(ws[1..])
  }

  ghost predicate Done(file: string, max: nat, ws: seq<Worker>) {
    forall i :: 0 <= i < |ws| ==> ws[i].phase.Finished? && WorkerOk(file, max, |file|, ws[i])
  }

  lemma {:induction false} SumsFromFront(ws: seq<Worker>)
    requires ws != []
    ensures Sums(ws) == Share(ws[0].mean) + Sums(ws[1..])
    ensures Counts(ws) == ws[0].mean.count + Counts(ws[1..])
  {
    hide Share;
    if |ws| == 1 {
      assert ws[..0] == [] && ws[1..] == [];
    } else {
      var less := ws[..|ws| - 1];
      SumsFromFront(less);
      assert ws[1..][..|ws| - 2] == less[1..];
    }
  }

  lemma HeldDone(file: string, max: nat, w: Worker)
    requires w.phase.Finished? && WorkerOk(file, max, |file|, w)
    ensures Held(file, w) == Tally(multiset(w.taken), w.mean.count, Share(w.mean))
  {
    hide TallyOf, Share, Plus;
    TallyCounts(file, w.taken);
    TallyNone(file);
    PlusLaws(TallyOf(file, w.taken), ZERO, ZERO);
  }

  lemma DoneRest(file: string, max: nat, ws: seq<Worker>)
    requires Done(file, max, ws) && ws != []
    ensures Done(file, max, ws[1..])
  {
    hide WorkerOk;
  }

  // At the end the workers hold exactly what went into their means.
  lemma {:induction false} DoneHolds(file: string, max: nat, ws: seq<Worker>)
    requires Done(file, max, ws)
    ensures AllHeld(file, ws) == Tally(AllTaken(ws), Counts(ws), Sums(ws))
  {
    hide Held, WorkerOk, Share;
    if ws != [] {
      hide Counts, Sums;
      assert ws[0].phase.Finished? && WorkerOk(file, max, |file|, ws[0]);
      HeldDone(file, max, ws[0]);
      DoneRest(file, max, ws);
      hide Done;
      DoneHolds(file, max, ws[1..]);
      SumsFromFront(ws);
    }
  }

  // The sum of all records of the file.
  function Total(file: string, n: nat): nat {
    if n == 0 then 0 else Total(file, n - 1) + ValueOf(Digits(file, n - 1))
  }

  lemma {:induction false} TotalIsSum(file: string, n: nat)
    ensures TallyOf(file, Range(0, n)).sum == Total(file, n) as real
  {
    hide ValueOf, Digits;
    if n > 0 {
      TotalIsSum(file, n - 1);
      TallyOne(file, Range(0, n - 1), n - 1);
    }
  }

  lemma {:induction false} RangeIs(n: nat)
    ensures |Range(0, n)| == n && forall i :: 0 <= i < n ==> Range(0, n)[i] == i
  {
    if n > 0 {
      RangeIs(n - 1);
    }
  }

  ghost predicate AllDone(ws: seq<Worker>) { forall i :: 0 <= i < |ws| ==> ws[i].phase.Finished? }

  // No thread can take a step any more.
  ghost predicate Ended(ws: seq<Worker>) { AllDone(ws) || Crashed(ws) }

  lemma {:induction false} NoCrash(file: string, max: nat, s: Sys)
    requires Inv(file, max, s)
    ensures !Crashed(s.workers)
  {
    hide AllHeld, TallyOf, Range;
    assert forall i :: 0 <= i < |s.workers| ==> WorkerOk(file, max, s.pos, s.workers[i]);
  }

  // If no read is too long, every record goes into exactly one thread's mean, once, and the means put
  // together by weight are the sum of all records divided by their number.
  lemma {:induction false} ShortReadsSuffice(file: string, max: nat, threads: nat, steps: seq<nat>)
    requires GoodChunk(file, max) && threads > 0 && Schedule(file, max, Sys(0, Fresh(threads)), steps)
    requires AllDone(Run(file, max, Sys(0, Fresh(threads)), steps).workers)
    ensures var ws := Run(file, max, Sys(0, Fresh(threads)), steps).workers;
            var n := Records(|file|);
            && !Crashed(ws) && AllTaken(ws) == multiset(Range(0, n)) && Counts(ws) == n
            && (n > 0 ==> Weighted(ws, Counts(ws)) == Total(file, n) as real / n as real)
  {
    hide ChunkSize, TallyOf, AllHeld, Schedule, Run, Weighted, Counts, Sums, Range, Total, AllTaken, WorkerOk,
         Records, Fresh, AllLeft, Done;
    var s0 := Sys(0, Fresh(threads));
    StartOk(file, max, threads);
    RunKeeps(file, max, s0, steps);
    RunSpends(file, max, s0, steps);
    var t := Run(file, max, s0, steps);
    var n := Records(|file|);
    NoCrash(file, max, t);
    AtTheEnd(file, max, t);
    AllOfIt(file, max, t);
    DoneHolds(file, max, t.workers);
    TallyCounts(file, Range(0, n));
    RangeIs(n);
    TotalIsSum(file, n);
    if n > 0 {
      WeightedIsMean(t.workers, n);
      Divide(Weighted(t.workers, n), n as real, Total(file, n) as real);
    }
  }

  lemma {:induction false} NobodyTook(ws: seq<Worker>, r: nat)
    requires forall i :: 0 <= i < |ws| ==> r !in ws[i].taken
    ensures r !in AllTaken(ws)
  {
    if ws != [] {
      NobodyTook(ws[1..], r);
    }
  }

  // If the first read is too long, some record of it goes into nobody's mean, whatever the schedule.
  lemma {:induction false} LongReadsLose(file: string, max: nat, threads: nat, steps: seq<nat>)
    requires ChunkSize(max) && !ShortReads(file, max) && Schedule(file, max, Sys(0, Fresh(threads)), steps)
    ensures var r := FirstLost(file, max);
            r < Records(|file|) && r !in AllTaken(Run(file, max, Sys(0, Fresh(threads)), steps).workers)
  {
    hide Schedule, Run, AllTaken;
    var s0, r := Sys(0, Fresh(threads)), FirstLost(file, max);
    LongReadsReachLess(Min(max, |file|));
    MoreRecords(Min(max, |file|), |file|);
    LostRun(file, max, s0, steps, r);
    NobodyTook(Run(file, max, s0, steps).workers, r);
  }

  lemma {:induction false} ShortReadsSafe(file: string, max: nat, threads: nat, steps: seq<nat>)
    requires GoodChunk(file, max) && Schedule(file, max, Sys(0, Fresh(threads)), steps)
    ensures !Crashed(Run(file, max, Sys(0, Fresh(threads)), steps).workers)
  {
    hide Schedule, Run, Inv, GoodChunk, Crashed;
    StartOk(file, max, threads);
    RunKeeps(file, max, Sys(0, Fresh(threads)), steps);
    NoCrash(file, max, Run(file, max, Sys(0, Fresh(threads)), steps));
  }

  // Whatever the order in which the threads take their steps, they all come to an end within the same
  // bound; and when no step is left, every record has gone into exactly one thread's mean, once, with
  // no step undefined, if and only if no read of the file can return 2147483712 bytes or more.
  lemma {:induction false} MeanIgnoresSchedule(file: string, max: nat, threads: nat, steps: seq<nat>)
    requires ChunkSize(max) && threads > 0 && Schedule(file, max, Sys(0, Fresh(threads)), steps)
    ensures var ws := Run(file, max, Sys(0, Fresh(threads)), steps).workers;
            var n := Records(|file|);
            && |steps| <= 2 * threads + |file|
            && (Ended(ws) ==>
                  (!Crashed(ws) && AllTaken(ws) == multiset(Range(0, n)) <==> Min(max, |file|) < LONG_READ))
            && (Ended(ws) && Min(max, |file|) < LONG_READ ==>
                  Counts(ws) == n && (n > 0 ==> Weighted(ws, Counts(ws)) == Total(file, n) as real / n as real))
  {
    hide ChunkSize, Schedule, Run, Weighted, Counts, Range, Total, AllTaken, Records, Fresh, AllLeft, AllDone, Crashed,
         Min;
    var s0 := Sys(0, Fresh(threads));
    RunSpends(file, max, s0, steps);
    FreshLeft(max, threads);
    var ws := Run(file, max, s0, steps).workers;
    if Min(max, |file|) < LONG_READ {
      ShortReadsSafe(file, max, threads, steps);
      if AllDone(ws) {
        ShortReadsSuffice(file, max, threads, steps);
      }
    } else {
      LongReadsLose(file, max, threads, steps);
      InRange(0, Records(|file|), FirstLost(file, max));
      assert FirstLost(file, max) in multiset(Range(0, Records(|file|)));
    }
  }

  // ---- Reads whose count fits in an unsigned int, and whose offsets do not fit in an int ----

  // A thread on its way to a record without an offset, or there.
  ghost predicate Doomed(w: Worker) {
    w.phase.Undefined? || (w.phase.Holding? && w.phase.got >= LONG_READ && w.phase.next <= INDEXED)
  }

  ghost predicate OneDoomed(s: Sys) {
    || (s.pos == 0 && s.workers != [] && forall i :: 0 <= i < |s.workers| ==> s.workers[i].phase.Ready?)
    || exists i :: 0 <= i < |s.workers| && Doomed(s.workers[i])
  }

  lemma DoomedStays(file: string, max: nat, pos: nat, w: Worker)
    requires pos <= |file| && LONG_READ <= Min(max, |file|) < UNSIGNED
    requires Doomed(w) || (pos == 0 && w.phase.Ready?)
    ensures Doomed(WorkerStep(file, max, pos, w).1)
  {
    hide Absorb, ValueOf, Digits;
    if w.phase.Holding? {
      OffsetsFit(w.phase.next);
      ReachedWhole(w.phase.got);
    }
  }

  lemma DoomedStep(file: string, max: nat, s: Sys, i: nat)
    requires s.pos <= |file| && LONG_READ <= Min(max, |file|) < UNSIGNED && i < |s.workers| && OneDoomed(s)
    ensures OneDoomed(Step(file, max, s, i))
  {
    hide WorkerStep, Doomed, Min;
    var s' := Step(file, max, s, i);
    if k :| 0 <= k < |s.workers| && Doomed(s.workers[k]) {
      if k == i {
        DoomedStays(file, max, s.pos, s.workers[i]);
      }
      assert Doomed(s'.workers[k]);
    } else {
      DoomedStays(file, max, s.pos, s.workers[i]);
      assert Doomed(s'.workers[i]);
    }
  }

  lemma {:induction false} DoomedRun(file: string, max: nat, s: Sys, steps: seq<nat>)
    requires s.pos <= |file| && LONG_READ <= Min(max, |file|) < UNSIGNED && OneDoomed(s)
    requires Schedule(file, max, s, steps)
    ensures OneDoomed(Run(file, max, s, steps))
    decreases |steps|
  {
    hide WorkerStep, OneDoomed, Min, Crashed;
    if steps != [] {
      DoomedStep(file, max, s, steps[0]);
      StepInside(file, max, s.pos, s.workers[steps[0]]);
      DoomedRun(file, max, Step(file, max, s, steps[0]), steps[1..]);
    }
  }

  // With a first read of 2147483712 bytes or more whose count is not cut down, no schedule ends well.
  lemma {:induction false} LongReadsCrash(file: string, max: nat, threads: nat, steps: seq<nat>)
    requires LONG_READ <= Min(max, |file|) < UNSIGNED && threads > 0
    requires Schedule(file, max, Sys(0, Fresh(threads)), steps)
    ensures var ws := Run(file, max, Sys(0, Fresh(threads)), steps).workers; Ended(ws) ==> Crashed(ws)
  {
    hide Schedule, Run, Min, Ended, Crashed;
    DoomedRun(file, max, Sys(0, Fresh(threads)), steps);
    DoomedIsOpen(Run(file, max, Sys(0, Fresh(threads)), steps));
  }

  lemma DoomedIsOpen(s: Sys)
    requires OneDoomed(s)
    ensures Ended(s.workers) ==> Crashed(s.workers)
  {
    if AllDone(s.workers) && s.workers != [] {
      assert s.workers[0].phase.Finished?;
    }
  }

  // The smallest such chunk: one thread, and room and file for 65075264 records.
  lemma {:induction false} SmallestLongRead(file: string, steps: seq<nat>)
    requires |file| == LONG_READ && Schedule(file, ThreadMemory(LONG_READ, 1), Sys(0, Fresh(1)), steps)
    ensures ThreadMemory(LONG_READ, 1) == LONG_READ && ChunkSize(LONG_READ) && Records(|file|) == INDEXED + 1
    ensures RECORD * INDEXED > INT_MAX && ReadCount(|file|) == |file|
    ensures var ws := Run(file, ThreadMemory(LONG_READ, 1), Sys(0, Fresh(1)), steps).workers; Ended(ws) ==> Crashed(ws)
  {
    hide Schedule, Run, Ended, Crashed;
    LongReadsCrash(file, ThreadMemory(LONG_READ, 1), 1, steps);
  }

  // ---- The smallest chunk whose count is cut down ----

  const HUGE := 4294967325

  ghost predicate Idle(w: Worker) {
    w.taken == [] && w.mean.count == 0 && (w.phase.Holding? ==> Records(w.phase.got) == 0)
  }

  ghost predicate NothingRead(size: nat, s: Sys) {
    (s.pos == 0 || s.pos == size) && forall i :: 0 <= i < |s.workers| ==> Idle(s.workers[i])
  }

  lemma HugeStep(file: string, s: Sys, i: nat)
    requires |file| == HUGE && s.pos <= |file| && i < |s.workers| && NothingRead(|file|, s)
    ensures NothingRead(|file|, Step(file, HUGE, s, i))
  {
    hide Absorb, ValueOf, Digits;
    assert Records(ReadCount(HUGE)) == 0 && Records(ReadCount(0)) == 0;
  }

  lemma {:induction false} HugeRun(file: string, s: Sys, steps: seq<nat>)
    requires |file| == HUGE && s.pos <= |file| && Schedule(file, HUGE, s, steps) && NothingRead(|file|, s)
    ensures NothingRead(|file|, Run(file, HUGE, s, steps))
    decreases |steps|
  {
    hide WorkerStep, NothingRead;
    if steps != [] {
      HugeStep(file, s, steps[0]);
      StepInside(file, HUGE, s.pos, s.workers[steps[0]]);
      HugeRun(file, Step(file, HUGE, s, steps[0]), steps[1..]);
    }
  }

  lemma {:induction false} NothingCounted(ws: seq<Worker>)
    requires forall i :: 0 <= i < |ws| ==> Idle(ws[i])
    ensures Counts(ws) == 0
  {
    if ws != [] {
      NothingCounted(ws[..|ws| - 1]);
    }
  }

  // One chunk of 130150525 records read at once: its count of bytes becomes 29, no thread ever takes a
  // record, and main divides by a count of zero.
  lemma {:induction false} HugeChunkTakesNothing(file: string, threads: nat, steps: seq<nat>)
    requires |file| == HUGE && Schedule(file, HUGE, Sys(0, Fresh(threads)), steps)
    ensures ChunkSize(HUGE) && Records(|file|) == 130150525
    ensures Counts(Run(file, HUGE, Sys(0, Fresh(threads)), steps).workers) == 0
  {
    hide Schedule, Run, Counts;
    HugeRun(file, Sys(0, Fresh(threads)), steps);
    NothingCounted(Run(file, HUGE, Sys(0, Fresh(threads)), steps).workers);
  }

  lemma Divide(w: real, n: real, total: real)
    requires n > 0.0 && w * n == total
    ensures w == total / n
  {
  }

  lemma {:induction false} AllOfIt(file: string, max: nat, t: Sys)
    requires Inv(file, max, t) && t.pos == |file|
    ensures AllHeld(file, t.workers) == TallyOf(file, Range(0, Records(|file|)))
  {
  }

  lemma AtTheEnd(file: string, max: nat, t: Sys)
    requires Inv(file, max, t) && |t.workers| > 0 && forall i :: 0 <= i < |t.workers| ==> t.workers[i].phase.Finished?
    ensures Done(file, max, t.workers) && t.pos == |file|
  {
    hide TallyOf, AllHeld, Range;
    assert WorkerOk(file, max, t.pos, t.workers[0]);
  }
}
