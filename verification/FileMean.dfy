// The mean a file of numbers leads to, from the characters in the file to the fraction.
module FileMean {
  import opened HexCodec
  import opened Naturals
  import opened ParallelMean

  // The digit for 16 to the (31 - k) in n.
  function DigitFor(n: nat, k: nat): char
    requires k < 32
  {
    "0123456789ABCDEF"[(n / Pow16(31 - k)) % 16]
  }

  // Line i of the file is n in 32 hexadecimal digits, the most significant first, and a newline.
  predicate LineIs(file: string, i: nat, n: nat)
    requires 33 * i + 33 <= |file|
  {
    && n < 0x1_0000_0000_0000_0000_0000_0000_0000_0000
    && (forall k :: 0 <= k < 32 ==> file[33 * i + k] == DigitFor(n, k))
    && file[33 * i + 32] == '\n'
  }

  // The lines of the file are these numbers; what follows the last of them, if anything, is no whole line.
  ghost predicate Lists(file: string, ns: seq<nat>) {
    33 * |ns| <= |file| < 33 * |ns| + 33 && forall i :: 0 <= i < |ns| ==> LineIs(file, i, ns[i])
  }

  function Sum(ns: seq<nat>): nat { if ns == [] then 0 else Sum(ns[..|ns| - 1]) + ns[|ns| - 1] }

  lemma {:induction false} LineRead(file: string, i: nat, n: nat)
    requires 33 * i + 33 <= |file| && LineIs(file, i, n)
    ensures ValueOf(Digits(file, i)) == n
  {
    hide ToHex, ValueOf, Pow16;
    var d := Digits(file, i);
    forall k | 0 <= k < 32
      ensures d[k] == ToHex(n, 32)[k]
    {
      WrittenByPlace(n, k);
      assert file[33 * i + k] == DigitFor(n, k);
    }
    assert d == ToHex(n, 32);
    CodecIsBijection(n, d);
  }

  lemma {:induction false} TotalOfLines(file: string, ns: seq<nat>, n: nat)
    requires Lists(file, ns) && n <= |ns|
    ensures Total(file, n) == Sum(ns[..n])
  {
    hide ValueOf, Digits, LineIs;
    if n > 0 {
      TotalOfLines(file, ns, n - 1);
      LineRead(file, n - 1, ns[n - 1]);
      assert ns[..n][..n - 1] == ns[..n - 1];
    }
  }

  // Whatever the number of threads, the size of the chunks and the order of their reads: when all threads
  // are done, their means put together are the sum of the numbers in the file over how many there are.
  lemma {:induction false} MeanOfNumbers(file: string, ns: seq<nat>, max: nat, threads: nat, steps: seq<nat>)
    requires Lists(file, ns) && ns != [] && threads > 0
    requires max > 0 && max % 33 == 0 && (max < 2147483712 || |file| < 2147483712)
    requires Schedule(file, max, Sys(0, Fresh(threads)), steps)
    ensures var ws := Run(file, max, Sys(0, Fresh(threads)), steps).workers;
            Ended(ws) ==>
              !Crashed(ws) && Counts(ws) == |ns| && Weighted(ws, |ns|) == Sum(ns) as real / |ns| as real
  {
    hide Schedule, Run, Weighted, Counts, Total, Sum, AllTaken, Fresh, AllDone, Crashed;
    assert Min(max, |file|) < 2147483712;
    MeanIgnoresSchedule(file, max, threads, steps);
    TotalOfLines(file, ns, |ns|);
    assert ns[..|ns|] == ns;
    assert Records(|file|) == |ns|;
  }
}
