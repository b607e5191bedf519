/** The token estimator: word runs, punctuation, and what splitting a message does to the estimate. */
module Tokenizer {
  import opened Wrappers
  import opened Sets

  /** Unicode classes and lower-casing; a text is its runes. */
  datatype Env = Env(isSpace: char -> bool, isPunct: char -> bool, lower: string -> string)

  // ----- Words

  /** Does a word start at position i? */
  predicate StartsAt(env: Env, s: string, i: nat)
    requires i < |s|
  {
    !env.isSpace(s[i]) && (i == 0 || env.isSpace(s[i - 1]))
  }

  function Words(env: Env, s: string): nat {
    if s == "" then 0
    else Words(env, s[..|s| - 1]) + if StartsAt(env, s, |s| - 1) then 1 else 0
  }

  method CountWords(env: Env, s: string) returns (count: nat)
    ensures count == Words(env, s)
  {
    var inWord := false;
    count := 0;
    var i := 0;
    while i < |s|
      invariant 0 <= i <= |s|
      invariant count == Words(env, s[..i])
      invariant inWord <==> i > 0 && !env.isSpace(s[i - 1])
    {
      assert s[..i + 1][..i] == s[..i];
      if env.isSpace(s[i]) {
        inWord := false;
      } else if !inWord {
        inWord := true;
        count := count + 1;
      }
      i := i + 1;
    }
    assert s[..i] == s;
  }

  /** s[i..j] is a maximal run of non-space runes. */
  ghost predicate IsRun(env: Env, s: string, i: nat, j: nat) {
    && i < j <= |s|
    && (forall k :: i <= k < j ==> !env.isSpace(s[k]))
    && (i > 0 ==> env.isSpace(s[i - 1]))
    && (j < |s| ==> env.isSpace(s[j]))
  }

  ghost function Runs(env: Env, s: string): set<(nat, nat)> {
    set i: nat, j: nat | i < |s| && j <= |s| && IsRun(env, s, i, j) :: (i, j)
  }

  lemma IsRunEarlier(env: Env, s: string, i: nat, j: nat)
    requires s != "" && j < |s|
    ensures IsRun(env, s, i, j) <==> IsRun(env, s[..|s| - 1], i, j) && (j == |s| - 1 ==> env.isSpace(s[j]))
  {
  }

  ghost predicate OnlyRunAtEnd(env: Env, s: string, i: nat) {
    IsRun(env, s, i, |s|) && forall k: nat :: IsRun(env, s, k, |s|) ==> k == i
  }

  /** The start of the run that ends a text with a non-space last rune. */
  lemma LastRun(env: Env, s: string) returns (i: nat)
    requires s != "" && !env.isSpace(s[|s| - 1])
    ensures OnlyRunAtEnd(env, s, i)
  {
    i := |s| - 1;
    while i > 0 && !env.isSpace(s[i - 1])
      invariant i < |s|
      invariant forall k :: i <= k < |s| ==> !env.isSpace(s[k])
    {
      i := i - 1;
    }
    forall k: nat | IsRun(env, s, k, |s|) ensures k == i {
      assert k > 0 ==> env.isSpace(s[k - 1]);
      assert i > 0 ==> env.isSpace(s[i - 1]);
    }
  }

  lemma InRuns(env: Env, s: string, r: (nat, nat))
    ensures r in Runs(env, s) <==> IsRun(env, s, r.0, r.1)
  {
  }

  lemma AppendSpace(env: Env, s: string)
    requires s != "" && env.isSpace(s[|s| - 1])
    ensures Runs(env, s) == Runs(env, s[..|s| - 1])
  {
    var p := s[..|s| - 1];
    forall r: (nat, nat) ensures r in Runs(env, s) <==> r in Runs(env, p) {
      InRuns(env, s, r);
      InRuns(env, p, r);
      if r.1 < |s| {
        IsRunEarlier(env, s, r.0, r.1);
      }
    }
  }

  lemma NoRunEnds(env: Env, p: string, k: nat)
    requires p != "" ==> env.isSpace(p[|p| - 1])
    ensures !IsRun(env, p, k, |p|)
  {
  }

  lemma NewWordRun(env: Env, s: string, k: nat, j: nat)
    requires s != "" && StartsAt(env, s, |s| - 1)
    ensures IsRun(env, s, k, j) <==> IsRun(env, s[..|s| - 1], k, j) || (k, j) == (|s| - 1, |s|)
  {
    var n := |s| - 1;
    if j < |s| {
      IsRunEarlier(env, s, k, j);
      NoRunEnds(env, s[..n], k);
    } else {
      var i := LastRun(env, s);
      assert IsRun(env, s, n, |s|);
    }
  }

  lemma AppendNewWord(env: Env, s: string)
    requires s != "" && StartsAt(env, s, |s| - 1)
    ensures |Runs(env, s)| == |Runs(env, s[..|s| - 1])| + 1
  {
    var n := |s| - 1;
    var p := s[..n];
    var last := (n, |s|);
    var before, after := Runs(env, p), Runs(env, s);
    forall r: (nat, nat) ensures r in after <==> r in before || r == last {
      InRuns(env, s, r);
      InRuns(env, p, r);
      NewWordRun(env, s, r.0, r.1);
    }
    InRuns(env, p, last);
    OneMore(before, after, last);
  }

  lemma LongerRun(env: Env, s: string, i: nat, i': nat, k: nat, j: nat)
    requires s != "" && !env.isSpace(s[|s| - 1])
    requires OnlyRunAtEnd(env, s, i) && OnlyRunAtEnd(env, s[..|s| - 1], i')
    ensures IsRun(env, s, k, j) <==> (IsRun(env, s[..|s| - 1], k, j) && (k, j) != (i', |s| - 1)) || (k, j) == (i, |s|)
  {
    if j < |s| {
      IsRunEarlier(env, s, k, j);
    }
  }

  lemma AppendToWord(env: Env, s: string)
    requires s != "" && !env.isSpace(s[|s| - 1]) && !StartsAt(env, s, |s| - 1)
    ensures |Runs(env, s)| == |Runs(env, s[..|s| - 1])|
  {
    var n := |s| - 1;
    var p := s[..n];
    var i' := LastRun(env, p);
    var i := LastRun(env, s);
    var shorter, longer := (i', n), (i, |s|);
    forall r: (nat, nat) ensures r in Runs(env, s) <==> (r in Runs(env, p) && r != shorter) || r == longer {
      InRuns(env, s, r);
      InRuns(env, p, r);
      LongerRun(env, s, i, i', r.0, r.1);
    }
    InRuns(env, p, shorter);
    InRuns(env, p, longer);
    OneReplaced(Runs(env, p), Runs(env, s), shorter, longer);
  }

  /** The loop counts exactly the maximal runs. */
  lemma {:induction false} WordsAreRuns(env: Env, s: string)
    ensures |Runs(env, s)| == Words(env, s)
  {
    if s == "" {
      assert Runs(env, s) == {};
    } else {
      WordsAreRuns(env, s[..|s| - 1]);
      if env.isSpace(s[|s| - 1]) {
        AppendSpace(env, s);
      } else if StartsAt(env, s, |s| - 1) {
        AppendNewWord(env, s);
      } else {
        AppendToWord(env, s);
      }
    }
  }

  /** Does cutting between s and t cut a word? */
  predicate CutsWord(env: Env, s: string, t: string) {
    s != "" && t != "" && !env.isSpace(s[|s| - 1]) && !env.isSpace(t[0])
  }

  /** Cutting a text in two adds a word exactly when it cuts one. */
  lemma {:induction false} WordsOfConcat(env: Env, s: string, t: string)
    ensures Words(env, s) + Words(env, t) == Words(env, s + t) + if CutsWord(env, s, t) then 1 else 0
    decreases |t|
  {
    if t == "" {
      assert s + t == s;
    } else {
      var n := |t| - 1;
      WordsOfConcat(env, s, t[..n]);
      assert (s + t)[..|s + t| - 1] == s + t[..n];
    }
  }

  // ----- Punctuation

  function Punctuation(env: Env, s: string): nat {
    if s == "" then 0 else Punctuation(env, s[..|s| - 1]) + if env.isPunct(s[|s| - 1]) then 1 else 0
  }

  method CountPunctuation(env: Env, s: string) returns (n: nat)
    ensures n == Punctuation(env, s)
  {
    n := 0;
    var i := 0;
    while i < |s|
      invariant 0 <= i <= |s| && n == Punctuation(env, s[..i])
    {
      assert s[..i + 1][..i] == s[..i];
      if env.isPunct(s[i]) {
        n := n + 1;
      }
      i := i + 1;
    }
    assert s[..i] == s;
  }

  ghost function Marks(env: Env, s: string): set<nat> {
    set i: nat | i < |s| && env.isPunct(s[i])
  }

  lemma InMarks(env: Env, s: string, i: nat)
    ensures i in Marks(env, s) <==> i < |s| && env.isPunct(s[i])
  {
  }

  /** The count is the number of positions that hold punctuation. */
  lemma {:induction false} PunctuationIsMarks(env: Env, s: string)
    ensures Punctuation(env, s) == |Marks(env, s)|
  {
    if s == "" {
      assert Marks(env, s) == {};
    } else {
      var n := |s| - 1;
      PunctuationIsMarks(env, s[..n]);
      forall i: nat ensures i in Marks(env, s) <==> i in Marks(env, s[..n]) || (i == n && env.isPunct(s[n])) {
        InMarks(env, s, i);
        InMarks(env, s[..n], i);
      }
      InMarks(env, s[..n], n);
      if env.isPunct(s[n]) {
        OneMore(Marks(env, s[..n]), Marks(env, s), n);
      } else {
        assert Marks(env, s) == Marks(env, s[..n]);
      }
    }
  }

  lemma {:induction false} PunctuationOfConcat(env: Env, s: string, t: string)
    ensures Punctuation(env, s + t) == Punctuation(env, s) + Punctuation(env, t)
    decreases |t|
  {
    if t == "" {
      assert s + t == s;
    } else {
      PunctuationOfConcat(env, s, t[..|t| - 1]);
      assert (s + t)[..|s + t| - 1] == s + t[..|t| - 1];
    }
  }

  // ----- Estimates

  datatype Family = ByWords | ByCharsAndPunctuation | ByChars

  function FamilyOf(env: Env, provider: string): Family {
    var p := env.lower(provider);
    if p == "openai" || p == "azure" then ByWords else if p == "anthropic" then ByCharsAndPunctuation else ByChars
  }

  function Max(a: int, b: int): int {
    if a > b then a else b
  }

  /** words * 1.30 truncated is taken as 13 * words / 10. */
  function Estimate(env: Env, text: string, provider: string): nat {
    if text == "" then 0
    else
      match FamilyOf(env, provider)
      case ByWords => 13 * Words(env, text) / 10
      case ByCharsAndPunctuation => Max(1, |text| / 4) + Punctuation(env, text) / 2
      case ByChars => Max(1, |text| / 4)
  }

  /**
   1.3 tokens a word, or a token for every four runes (at least one), rounded down; for one family one
   more for every two punctuation marks.
   */
  lemma EstimateMeaning(env: Env, text: string, provider: string)
    ensures text == "" ==> Estimate(env, text, provider) == 0
    ensures
      var e, name := Estimate(env, text, provider), env.lower(provider);
      text != "" ==>
        if name == "openai" || name == "azure" then 10 * e <= 13 * Words(env, text) < 10 * e + 10
        else if name == "anthropic" then
          exists c: nat, p: nat :: CharTokens(text, c) && HalfOf(Punctuation(env, text), p) && e == c + p
        else CharTokens(text, e)
  {
    var c, p := Max(1, |text| / 4), Punctuation(env, text) / 2;
    assert CharTokens(text, c) && HalfOf(Punctuation(env, text), p);
  }

  predicate HalfOf(n: nat, p: nat) {
    2 * p <= n < 2 * p + 2
  }

  predicate CharTokens(text: string, c: nat) {
    if |text| < 4 then c == 1 else 4 * c <= |text| < 4 * c + 4
  }

  method EstimateText(env: Env, text: string, provider: string) returns (tokens: nat)
    ensures tokens == Estimate(env, text, provider)
  {
    if text == "" {
      return 0;
    }
    match FamilyOf(env, provider) {
      case ByWords =>
        var words := CountWords(env, text);
        return 13 * words / 10;
      case ByCharsAndPunctuation =>
        var marks := CountPunctuation(env, text);
        return Max(1, |text| / 4) + marks / 2;
      case ByChars =>
        return Max(1, |text| / 4);
    }
  }

  /** A message may have no content. */
  function Total(env: Env, messages: seq<Option<string>>, provider: string): nat {
    if messages == [] then 0
    else
      var last := messages[|messages| - 1];
      Total(env, messages[..|messages| - 1], provider) + 4
      + if last.Some? then Estimate(env, last.value, provider) else 0
  }

  /** A message without content counts 4, any other its estimate on top; TotalOfConcat extends this to every list. */
  lemma TotalOfOne(env: Env, message: Option<string>, provider: string)
    ensures Total(env, [], provider) == 0
    ensures Total(env, [message], provider) ==
            match message case None => 4 case Some(text) => 4 + Estimate(env, text, provider)
  {
    assert [message][..0] == [];
  }

  method EstimateMessages(env: Env, messages: seq<Option<string>>, provider: string) returns (tokens: nat)
    ensures tokens == Total(env, messages, provider) + 3
  {
    var total := 0;
    var i := 0;
    while i < |messages|
      invariant 0 <= i <= |messages| && total == Total(env, messages[..i], provider)
    {
      assert messages[..i + 1][..i] == messages[..i];
      if messages[i].Some? {
        var tokensOfOne := EstimateText(env, messages[i].value, provider);
        total := total + tokensOfOne;
      }
      total := total + 4;
      i := i + 1;
    }
    assert messages[..i] == messages;
    return total + 3;
  }

  lemma {:induction false} TotalOfConcat(env: Env, a: seq<Option<string>>, b: seq<Option<string>>, provider: string)
    ensures Total(env, a + b, provider) == Total(env, a, provider) + Total(env, b, provider)
    decreases |b|
  {
    if b == [] {
      assert a + b == a;
    } else {
      TotalOfConcat(env, a, b[..|b| - 1], provider);
      assert (a + b)[..|a + b| - 1] == a + b[..|b| - 1];
    }
  }

  /** How far the two halves of a text are from the whole: the range for each family of providers. */
  function LeastChange(f: Family): int {
    match f case ByWords => -1 case ByCharsAndPunctuation => -2 case ByChars => -1
  }

  function MostChange(f: Family): int {
    match f case ByWords => 2 case ByCharsAndPunctuation => 1 case ByChars => 1
  }

  lemma Tenths(a: nat, b: nat, ab: nat)
    requires ab <= a + b <= ab + 1
    ensures -1 <= 13 * a / 10 + 13 * b / 10 - 13 * ab / 10 <= 2
  {
  }

  lemma Quarters(m: nat, n: nat)
    requires m > 0 && n > 0
    ensures -1 <= Max(1, m / 4) + Max(1, n / 4) - Max(1, (m + n) / 4) <= 1
  {
  }

  lemma Halves(p: nat, q: nat)
    ensures -1 <= p / 2 + q / 2 - (p + q) / 2 <= 0
  {
  }

  lemma EstimateOfConcat(env: Env, s: string, t: string, provider: string)
    ensures
      var change := Estimate(env, s, provider) + Estimate(env, t, provider) - Estimate(env, s + t, provider);
      LeastChange(FamilyOf(env, provider)) <= change <= MostChange(FamilyOf(env, provider))
  {
    if s == "" {
      assert s + t == t;
    } else if t == "" {
      assert s + t == s;
    } else {
      WordsOfConcat(env, s, t);
      PunctuationOfConcat(env, s, t);
      Tenths(Words(env, s), Words(env, t), Words(env, s + t));
      Quarters(|s|, |t|);
      Halves(Punctuation(env, s), Punctuation(env, t));
    }
  }

  /** Splitting one message into two changes the estimate of the whole list by the overhead of 4 and that range. */
  lemma SplitMessage(env: Env, before: seq<Option<string>>, s: string, t: string, after: seq<Option<string>>,
                     provider: string)
    ensures
      var split, whole := before + [Some(s), Some(t)] + after, before + [Some(s + t)] + after;
      var change := Total(env, split, provider) - Total(env, whole, provider);
      4 + LeastChange(FamilyOf(env, provider)) <= change <= 4 + MostChange(FamilyOf(env, provider))
  {
    var two, one := [Some(s), Some(t)], [Some(s + t)];
    TotalOfConcat(env, before + two, after, provider);
    TotalOfConcat(env, before + one, after, provider);
    TotalOfConcat(env, before, two, provider);
    TotalOfConcat(env, before, one, provider);
    assert two[..1] == [Some(s)] && two[..1][..0] == [] && one[..0] == [];
    assert Total(env, two[..1], provider) == 4 + Estimate(env, s, provider);
    EstimateOfConcat(env, s, t, provider);
  }
}
