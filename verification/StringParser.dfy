// Splitting a line into a bounded number of fields (KP/funcs/string_parser.cpp), the one parser
// used on both ends of the messenger's wire.
module StringParser {

  // The first place the separator occurs, or the length.
  function IndexOf(s: string, sep: char): (i: nat)
    ensures i <= |s| && (i < |s| ==> s[i] == sep)
    ensures forall j :: 0 <= j < i ==> s[j] != sep
  {
    if s == [] || s[0] == sep then 0 else 1 + IndexOf(s[1..], sep)
  }

  predicate Free(s: string, sep: char) { sep !in s }

  // At most k fields; a limit below one acts like one.
  function Split(s: string, k: int, sep: char): (r: seq<string>)
    ensures |r| >= 1
    decreases |s|
  {
    var i := IndexOf(s, sep);
    if k <= 1 || i == |s| then [s] else [s[..i]] + Split(s[i + 1..], k - 1, sep)
  }

  function Join(fs: seq<string>, sep: char): string
    requires fs != []
  {
    if |fs| == 1 then fs[0] else fs[0] + [sep] + Join(fs[1..], sep)
  }

  function Count(s: string, sep: char): nat {
    if s == [] then 0 else (if s[0] == sep then 1 else 0) + Count(s[1..], sep)
  }

  lemma {:induction false} FirstAt(s: string, i: nat, sep: char)
    requires i < |s| && s[i] == sep && Free(s[..i], sep)
    ensures IndexOf(s, sep) == i
  {
    assert forall j :: 0 <= j < i ==> s[..i][j] == s[j] && s[..i][j] in s[..i];
  }

  lemma {:induction false} NoneLeft(s: string, sep: char)
    requires Free(s, sep)
    ensures IndexOf(s, sep) == |s|
  {
  }

  lemma SplitAt(s: string, k: int, i: nat, sep: char)
    requires k > 1 && i < |s| && s[i] == sep && Free(s[..i], sep)
    ensures Split(s, k, sep) == [s[..i]] + Split(s[i + 1..], k - 1, sep)
  {
    FirstAt(s, i, sep);
  }

  lemma {:induction false} SplitWhole(s: string, k: int, sep: char)
    requires k <= 1 || Free(s, sep)
    ensures Split(s, k, sep) == [s]
  {
    if k > 1 {
      NoneLeft(s, sep);
    }
  }

  // The loop over the characters, with the end of the last field found remembered in `prev`.
  method Parse(st: string, argsCount: int, vec: seq<string>, sep: char) returns (vec': seq<string>)
    ensures vec' == vec + Split(st, argsCount, sep)
  {
    hide Split, IndexOf;
    vec' := vec;
    var prev := -1;
    var i := 0;
    var left := argsCount - 1;
    assert st[0..] == st;
    while left > 0 && i < |st|
      invariant -1 <= prev < i <= |st|
      invariant Free(st[prev + 1..i], sep)
      invariant vec' + Split(st[prev + 1..], left + 1, sep) == vec + Split(st, argsCount, sep)
      decreases |st| - i
    {
      ghost var rest := st[prev + 1..];
      if st[i] == sep {
        assert rest[..i - prev - 1] == st[prev + 1..i] && rest[i - prev..] == st[i + 1..];
        SplitAt(rest, left + 1, i - prev - 1, sep);
        vec' := TakeField(vec', st[prev + 1..i], Split(st[i + 1..], left, sep));
        left := left - 1;
        prev := i;
      } else {
        assert st[prev + 1..i + 1] == st[prev + 1..i] + [st[i]];
      }
      i := i + 1;
    }
    assert i == |st| ==> st[prev + 1..i] == st[prev + 1..];
    SplitWhole(st[prev + 1..], left + 1, sep);
    if prev < |st| - 1 {
      vec' := vec' + [st[prev + 1..]];
    } else {
      vec' := vec' + [""];
    }
  }

  method TakeField(vec: seq<string>, field: string, ghost rest: seq<string>) returns (vec': seq<string>)
    ensures vec' == vec + [field] && vec' + rest == vec + ([field] + rest)
  {
    vec' := vec + [field];
  }

  // ---- Splitting and joining are inverse to each other ----

  lemma {:induction false} JoinSplit(s: string, k: int, sep: char)
    ensures Join(Split(s, k, sep), sep) == s
    decreases |s|
  {
    var i := IndexOf(s, sep);
    if k > 1 && i < |s| {
      JoinSplit(s[i + 1..], k - 1, sep);
      assert Split(s, k, sep)[1..] == Split(s[i + 1..], k - 1, sep);
      assert s == s[..i] + [sep] + s[i + 1..];
    }
  }

  lemma {:induction false} CountFree(s: string, t: string, sep: char)
    requires Free(s, sep)
    ensures Count(s + t, sep) == Count(t, sep)
  {
    if s == [] {
      assert s + t == t;
    } else {
      assert s[0] in s && (s + t)[1..] == s[1..] + t;
      CountFree(s[1..], t, sep);
    }
  }

  lemma {:induction false} SplitCount(s: string, k: int, sep: char)
    ensures |Split(s, k, sep)| == if k <= 1 then 1 else if k <= Count(s, sep) then k else Count(s, sep) + 1
    decreases |s|
  {
    var i := IndexOf(s, sep);
    CountFirst(s, sep);
    hide Count;
    if k > 1 && i < |s| {
      SplitCount(s[i + 1..], k - 1, sep);
    }
  }

  lemma {:induction false} CountFirst(s: string, sep: char)
    ensures var i := IndexOf(s, sep);
            Count(s, sep) == if i < |s| then 1 + Count(s[i + 1..], sep) else 0
  {
    var i := IndexOf(s, sep);
    if i == |s| {
      CountFree(s, [], sep);
      assert s + [] == s;
    } else {
      assert s == s[..i] + ([sep] + s[i + 1..]);
      CountFree(s[..i], [sep] + s[i + 1..], sep);
      assert ([sep] + s[i + 1..])[1..] == s[i + 1..];
    }
  }

  lemma {:induction false} SplitClean(s: string, k: int, sep: char)
    ensures forall j :: 0 <= j < |Split(s, k, sep)| - 1 ==> Free(Split(s, k, sep)[j], sep)
    ensures |Split(s, k, sep)| < k ==> Free(Split(s, k, sep)[|Split(s, k, sep)| - 1], sep)
    decreases |s|
  {
    var i := IndexOf(s, sep);
    if k > 1 && i < |s| {
      SplitClean(s[i + 1..], k - 1, sep);
    }
  }

  // All fields but the last are free of the separator, and the last too unless the limit is used up.
  predicate Fits(fs: seq<string>, k: int, sep: char) {
    && 1 <= |fs| && (|fs| <= k || |fs| == 1)
    && (forall j :: 0 <= j < |fs| - 1 ==> Free(fs[j], sep))
    && (|fs| < k ==> Free(fs[|fs| - 1], sep))
  }

  lemma {:induction false} SplitJoin(fs: seq<string>, k: int, sep: char)
    requires Fits(fs, k, sep)
    ensures Split(Join(fs, sep), k, sep) == fs
  {
    hide Split, Free;
    if |fs| == 1 {
      SplitWhole(fs[0], k, sep);
    } else {
      hide Join;
      FitsRest(fs, k, sep);
      SplitJoin(fs[1..], k - 1, sep);
      JoinHead(fs, k, sep);
    }
  }

  lemma FitsRest(fs: seq<string>, k: int, sep: char)
    requires Fits(fs, k, sep) && |fs| > 1
    ensures Fits(fs[1..], k - 1, sep)
  {
    hide Free;
  }

  lemma JoinHead(fs: seq<string>, k: int, sep: char)
    requires |fs| > 1 && k > 1 && Free(fs[0], sep)
    ensures Split(Join(fs, sep), k, sep) == [fs[0]] + Split(Join(fs[1..], sep), k - 1, sep)
  {
    hide Split;
    var t, i := Join(fs[1..], sep), |fs[0]|;
    var s := fs[0] + [sep] + t;
    assert s[..i] == fs[0] && s[i + 1..] == t && s[i] == sep;
    SplitAt(s, k, i, sep);
  }

  // Splitting without a limit that matters.
  function Fields(s: string, sep: char): (r: seq<string>)
    ensures r != []
  {
    Split(s, |s| + 1, sep)
  }

  // A limit larger than the string never bites.
  lemma {:induction false} LimitUnused(s: string, k: int, l: int, sep: char)
    requires k > |s| && l > |s|
    ensures Split(s, k, sep) == Split(s, l, sep)
    decreases |s|
  {
    hide Split;
    var i := IndexOf(s, sep);
    if i < |s| {
      LimitUnused(s[i + 1..], k - 1, l - 1, sep);
      SplitAt(s, k, i, sep);
      SplitAt(s, l, i, sep);
    } else {
      SplitWhole(s, k, sep);
      SplitWhole(s, l, sep);
    }
  }

  lemma FieldsAt(s: string, i: nat, sep: char)
    requires i < |s| && s[i] == sep && Free(s[..i], sep)
    ensures Fields(s, sep) == [s[..i]] + Fields(s[i + 1..], sep)
  {
    SplitAt(s, |s| + 1, i, sep);
    LimitUnused(s[i + 1..], |s|, |s[i + 1..]| + 1, sep);
  }

  lemma FieldsWhole(s: string, sep: char)
    requires Free(s, sep)
    ensures Fields(s, sep) == [s]
  {
    SplitWhole(s, |s| + 1, sep);
  }

  lemma {:induction false} JoinLength(fs: seq<string>, sep: char)
    requires fs != []
    ensures |Join(fs, sep)| >= |fs| - 1
  {
    if |fs| > 1 {
      JoinLength(fs[1..], sep);
    }
  }

  lemma {:induction false} FieldsOfJoin(fs: seq<string>, sep: char)
    requires fs != [] && forall j :: 0 <= j < |fs| ==> Free(fs[j], sep)
    ensures Fields(Join(fs, sep), sep) == fs
  {
    JoinLength(fs, sep);
    SplitJoin(fs, |Join(fs, sep)| + 1, sep);
  }

  lemma {:induction false} JoinMore(fs: seq<string>, gs: seq<string>, sep: char)
    requires fs != [] && gs != []
    ensures Join(fs + gs, sep) == Join(fs, sep) + [sep] + Join(gs, sep)
  {
    if |fs| == 1 {
      assert (fs + gs)[1..] == gs;
    } else {
      assert (fs + gs)[1..] == fs[1..] + gs;
      JoinMore(fs[1..], gs, sep);
      assert fs[0] + [sep] + (Join(fs[1..], sep) + [sep] + Join(gs, sep))
          == (fs[0] + [sep] + Join(fs[1..], sep)) + [sep] + Join(gs, sep);
    }
  }
}
