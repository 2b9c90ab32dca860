/** The content plan's variation: topics, calls to action and headlines that never repeat. */
module ContentPlan {
  import opened Common

  // ----- text keys

  predicate IsBlank(c: char) {
    c == ' ' || '\t' <= c <= '\r' || '\U{1C}' <= c <= '\U{1F}' || c == '\U{85}' || c == '\U{A0}'
  }

  function LowerChar(c: char): (l: char)
    ensures IsBlank(l) <==> IsBlank(c)
  {
    if 'A' <= c <= 'Z' then c - 'A' + 'a' else c
  }

  function Lower(s: string): (l: string)
    ensures |l| == |s|
    ensures forall i :: 0 <= i < |s| ==> l[i] == LowerChar(s[i])
  {
    seq(|s|, i requires 0 <= i < |s| => LowerChar(s[i]))
  }

  predicate Solid(w: string) {
    w != "" && forall c <- w :: !IsBlank(c)
  }

  /** Where the last word of a text that does not end in a blank begins. */
  function LastWordStart(s: string): (i: nat)
    requires s != "" && !IsBlank(s[|s| - 1])
    ensures i < |s| && Solid(s[i..]) && (i > 0 ==> IsBlank(s[i - 1]))
  {
    if |s| == 1 || IsBlank(s[|s| - 2]) then |s| - 1
    else
      var i := LastWordStart(s[..|s| - 1]);
      assert s[i..] == s[..|s| - 1][i..] + [s[|s| - 1]];
      i
  }

  function Words(s: string): (ws: seq<string>)
    ensures forall w <- ws :: Solid(w)
  {
    if s == "" then []
    else if IsBlank(s[|s| - 1]) then Words(s[..|s| - 1])
    else
      var i := LastWordStart(s);
      Words(s[..i]) + [s[i..]]
  }

  function Join(ws: seq<string>): string {
    if ws == [] then ""
    else if |ws| == 1 then ws[0]
    else Join(ws[..|ws| - 1]) + " " + ws[|ws| - 1]
  }

  /** Lower case, with single blanks between the words and none around them. */
  function TextKey(s: string): string {
    Join(Words(Lower(s)))
  }

  lemma {:induction false} LastWordIs(x: string, d: string)
    requires Solid(d)
    ensures LastWordStart(x + " " + d) == |x| + 1
  {
    var s := x + " " + d;
    assert s[|s| - 1] == d[|d| - 1] && d[|d| - 1] in d;
    if |d| > 1 {
      var e := d[..|d| - 1];
      assert s[|s| - 2] == d[|d| - 2] && d[|d| - 2] in d;
      assert forall c <- e :: c in d;
      assert s[..|s| - 1] == x + " " + e;
      LastWordIs(x, e);
    } else {
      assert s[|s| - 2] == ' ';
    }
  }

  lemma WordsSnoc(x: string, d: string)
    requires Solid(d)
    ensures Words(x + " " + d) == Words(x) + [d]
  {
    var s := x + " " + d;
    LastWordIs(x, d);
    assert s[|s| - 1] == d[|d| - 1] && d[|d| - 1] in d;
    assert s[..|x| + 1] == x + " " && s[|x| + 1..] == d;
    assert (x + " ")[..|x|] == x;
  }

  predicate Blank(s: string) {
    forall c <- s :: IsBlank(c)
  }

  lemma {:induction false} LastWordAfter(x: string, c: char, d: string)
    requires Solid(d) && IsBlank(c)
    ensures LastWordStart(x + [c] + d) == |x| + 1
  {
    var s := x + [c] + d;
    assert s[|s| - 1] == d[|d| - 1] && d[|d| - 1] in d;
    if |d| > 1 {
      var e := d[..|d| - 1];
      assert s[|s| - 2] == d[|d| - 2] && d[|d| - 2] in d;
      assert forall c <- e :: c in d;
      assert s[..|s| - 1] == x + [c] + e;
      LastWordAfter(x, c, e);
    } else {
      assert s[|s| - 2] == c;
    }
  }

  lemma WordsAfter(x: string, c: char, d: string)
    requires Solid(d) && IsBlank(c)
    ensures Words(x + [c] + d) == Words(x) + [d]
  {
    var s := x + [c] + d;
    LastWordAfter(x, c, d);
    assert s[|s| - 1] == d[|d| - 1] && d[|d| - 1] in d;
    assert s[..|x| + 1] == x + [c] && s[|x| + 1..] == d;
    assert (x + [c])[..|x|] == x;
  }

  lemma {:induction false} WordsTrailing(x: string, gap: string)
    requires Blank(gap)
    ensures Words(x + gap) == Words(x)
  {
    if gap == "" {
      assert x + gap == x;
    } else {
      var n := |gap| - 1;
      assert gap[n] in gap && forall c <- gap[..n] :: c in gap;
      WordsTrailing(x, gap[..n]);
      assert (x + gap)[..|x| + n] == x + gap[..n];
    }
  }

  lemma SplitGap(x: string, gap: string, d: string)
    requires gap != ""
    ensures x + (gap + d) == x + gap[..|gap| - 1] + [gap[|gap| - 1]] + d
  {
  }

  lemma BlankInit(gap: string)
    requires Blank(gap) && gap != ""
    ensures Blank(gap[..|gap| - 1]) && IsBlank(gap[|gap| - 1])
  {
    assert gap[|gap| - 1] in gap && forall c <- gap[..|gap| - 1] :: c in gap;
  }

  /** Words come apart at any white space, however much of it. */
  lemma WordsApart(x: string, gap: string, d: string)
    requires Solid(d) && Blank(gap) && gap != ""
    ensures Words(x + (gap + d)) == Words(x) + [d]
  {
    BlankInit(gap);
    WordsTrailing(x, gap[..|gap| - 1]);
    WordsAfter(x + gap[..|gap| - 1], gap[|gap| - 1], d);
    SplitGap(x, gap, d);
  }

  /** A text of these words, each after its gap. */
  function Spaced(gaps: seq<string>, ws: seq<string>): string
    requires |gaps| == |ws|
  {
    if ws == [] then ""
    else
      var n := |ws| - 1;
      Spaced(gaps[..n], ws[..n]) + (gaps[n] + ws[n])
  }

  /** Gaps are white space, and only the first may be empty. */
  ghost predicate ValidSpacing(gaps: seq<string>, ws: seq<string>) {
    && |gaps| == |ws|
    && forall i :: 0 <= i < |ws| ==> Solid(ws[i]) && Blank(gaps[i]) && (i > 0 ==> gaps[i] != "")
  }

  lemma {:induction false} WordAlone(d: string)
    requires Solid(d)
    ensures LastWordStart(d) == 0 && Words(d) == [d]
  {
    assert d[|d| - 1] in d;
    if |d| > 1 {
      assert d[|d| - 2] in d && forall c <- d[..|d| - 1] :: c in d;
      WordAlone(d[..|d| - 1]);
    }
    assert d[0..] == d && d[..0] == "";
  }

  lemma NoWords()
    ensures Words("") == []
  {
  }

  lemma WordFirst(gap: string, d: string)
    requires Solid(d) && Blank(gap)
    ensures Words("" + (gap + d)) == [d]
  {
    if gap == "" {
      assert "" + (gap + d) == d;
      WordAlone(d);
    } else {
      WordsApart("", gap, d);
      NoWords();
    }
  }

  lemma {:induction false} WordsOfSpaced(gaps: seq<string>, ws: seq<string>)
    requires ValidSpacing(gaps, ws)
    ensures Words(Spaced(gaps, ws)) == ws
  {
    if |ws| == 1 {
      WordFirst(gaps[0], ws[0]);
    } else if |ws| > 1 {
      var n := |ws| - 1;
      WordsOfSpaced(gaps[..n], ws[..n]);
      WordsApart(Spaced(gaps[..n], ws[..n]), gaps[n], ws[n]);
    }
  }

  /** The key of a text is its words in lower case with single blanks between them: white space and case
      do not matter, and nothing else is lost. */
  lemma KeyOfWords(text: string, gaps: seq<string>, ws: seq<string>, trail: string)
    requires ValidSpacing(gaps, ws) && Blank(trail) && Lower(text) == Spaced(gaps, ws) + trail
    ensures TextKey(text) == Join(ws)
  {
    WordsOfSpaced(gaps, ws);
    WordsTrailing(Spaced(gaps, ws), trail);
  }

  /** What a text's key is when a word is appended. */
  function KeyPrefix(x: string): string {
    if Words(Lower(x)) == [] then "" else TextKey(x) + " "
  }

  lemma KeySnoc(x: string, d: string)
    requires Solid(d)
    ensures TextKey(x + " " + d) == KeyPrefix(x) + Lower(d)
  {
    var l := Lower(d);
    forall c | c in l ensures !IsBlank(c) {
      var i :| 0 <= i < |l| && l[i] == c;
      assert d[i] in d;
    }
    assert Lower(x + " " + d) == Lower(x) + " " + l;
    WordsSnoc(Lower(x), l);
    JoinSnoc(Words(Lower(x)), l);
  }

  lemma JoinSnoc(ws: seq<string>, w: string)
    ensures Join(ws + [w]) == (if ws == [] then "" else Join(ws) + " ") + w
  {
    assert (ws + [w])[..|ws|] == ws;
    if ws == [] {
      assert ws + [w] == [w];
      assert "" + w == w;
    }
  }

  // ----- numbers

  function Digit(n: nat): (c: char)
    requires n < 10
    ensures '0' <= c <= '9'
  {
    '0' + n as char
  }

  function Decimal(n: nat): (s: string)
    ensures s != "" && forall i :: 0 <= i < |s| ==> '0' <= s[i] <= '9'
  {
    if n < 10 then [Digit(n)] else Decimal(n / 10) + [Digit(n % 10)]
  }

  lemma DecimalLast(n: nat)
    ensures var s := Decimal(n); s[|s| - 1] == Digit(n % 10) && (n < 10 <==> |s| == 1)
    ensures n >= 10 ==> Decimal(n)[..|Decimal(n)| - 1] == Decimal(n / 10)
  {
  }

  lemma {:induction false} DecimalInjective(m: nat, n: nat)
    requires Decimal(m) == Decimal(n)
    ensures m == n
  {
    DecimalLast(m);
    DecimalLast(n);
    if m >= 10 {
      DecimalInjective(m / 10, n / 10);
    }
  }

  /** A numbered candidate: the text, a blank, the number and what follows it. */
  function Numbered(x: string, n: nat, tail: string): string {
    x + " " + (Decimal(n) + tail)
  }

  lemma LowerConcat(a: string, b: string)
    ensures Lower(a + b) == Lower(a) + Lower(b)
  {
  }

  lemma LowerDigits(a: string)
    requires forall i :: 0 <= i < |a| ==> '0' <= a[i] <= '9'
    ensures Lower(a) == a
  {
  }

  lemma SolidConcat(a: string, b: string)
    requires Solid(a) && (b == "" || Solid(b))
    ensures Solid(a + b)
  {
    forall c | c in a + b ensures !IsBlank(c) {
      assert c in a || c in b;
    }
  }

  lemma DecimalSolid(n: nat)
    ensures Solid(Decimal(n))
  {
    var s := Decimal(n);
    forall c | c in s ensures !IsBlank(c) {
      var i :| 0 <= i < |s| && s[i] == c;
    }
  }

  lemma Regroup(a: string, b: string, c: string)
    ensures a + (b + c) == a + b + c
  {
  }

  lemma NumberedKey(x: string, n: nat, tail: string)
    requires tail == "" || Solid(tail)
    ensures TextKey(Numbered(x, n, tail)) == KeyPrefix(x) + Decimal(n) + Lower(tail)
  {
    DecimalSolid(n);
    SolidConcat(Decimal(n), tail);
    KeySnoc(x, Decimal(n) + tail);
    LowerConcat(Decimal(n), tail);
    LowerDigits(Decimal(n));
    Regroup(KeyPrefix(x), Decimal(n), Lower(tail));
  }

  /** Different numbers give different keys. */
  lemma NumberedDistinct(x: string, m: nat, n: nat, tail: string)
    requires (tail == "" || Solid(tail)) && m != n
    ensures TextKey(Numbered(x, m, tail)) != TextKey(Numbered(x, n, tail))
  {
    NumberedKey(x, m, tail);
    NumberedKey(x, n, tail);
    if TextKey(Numbered(x, m, tail)) == TextKey(Numbered(x, n, tail)) {
      SameMiddle(KeyPrefix(x), Decimal(m), Decimal(n), Lower(tail));
      DecimalInjective(m, n);
    }
  }

  lemma SameMiddle(p: string, a: string, b: string, t: string)
    requires p + a + t == p + b + t
    ensures a == b
  {
    var s := p + a + t;
    assert |a| == |b|;
    assert s[|p|..|p| + |a|] == a;
    assert s[|p|..|p| + |b|] == b;
  }

  // ----- the bump loops

  /** The keys of the candidates numbered from 2 up to, not including, n. */
  ghost function Tried(key: nat -> string, n: nat): set<string> {
    if n <= 2 then {} else Tried(key, n - 1) + {key(n - 1)}
  }

  lemma {:induction false} TriedKeys(key: nat -> string, n: nat, k: string)
    ensures k in Tried(key, n) ==> exists m :: 2 <= m < n && k == key(m)
  {
    if n > 2 {
      TriedKeys(key, n - 1, k);
      assert key(n - 1) == key(n - 1);
    }
  }

  lemma {:induction false} TriedSize(key: nat -> string, n: nat)
    requires n >= 2
    requires forall l: nat, m: nat :: l != m ==> key(l) != key(m)
    ensures |Tried(key, n)| == n - 2
  {
    if n > 2 {
      TriedSize(key, n - 1);
      TriedKeys(key, n - 1, key(n - 1));
    }
  }

  lemma SubsetSize<T>(a: set<T>, b: set<T>)
    requires a <= b
    ensures |a| <= |b|
  {
    assert b == a + (b - a);
  }

  ghost function NumberedKeys(x: string, tail: string): (key: nat -> string)
    ensures forall n :: key(n) == TextKey(Numbered(x, n, tail))
  {
    (n: nat) => TextKey(Numbered(x, n, tail))
  }

  ghost predicate AllUsed(key: nat -> string, n: nat, used: set<string>) {
    forall m :: 2 <= m < n ==> key(m) in used
  }

  /** As long as only used keys were tried, at most |used| of them were. */
  lemma StillFinite(x: string, tail: string, n: nat, used: set<string>)
    requires tail == "" || Solid(tail)
    requires n >= 2 && AllUsed(NumberedKeys(x, tail), n, used)
    ensures n <= |used| + 2
  {
    var key := NumberedKeys(x, tail);
    forall l: nat, m: nat | l != m ensures key(l) != key(m) {
      NumberedDistinct(x, l, m, tail);
    }
    TriedSize(key, n);
    forall k | k in Tried(key, n) ensures k in used {
      TriedKeys(key, n, k);
    }
    SubsetSize(Tried(key, n), used);
  }

  lemma OneMoreUsed(x: string, tail: string, n: nat, used: set<string>, text: string)
    requires AllUsed(NumberedKeys(x, tail), n, used)
    requires text == Numbered(x, n, tail) && TextKey(text) in used
    ensures AllUsed(NumberedKeys(x, tail), n + 1, used)
  {
    var key := NumberedKeys(x, tail);
    assert key(n) == TextKey(Numbered(x, n, tail));
    assert key(n) in used;
  }

  /** Counts up from 2 to the first number whose text has an unused key. It ends within one more round
      than there are used keys, because the numbers give different keys. */
  method FirstFree(x: string, tail: string, used: set<string>) returns (text: string, ghost bump: nat)
    requires tail == "" || Solid(tail)
    ensures 2 <= bump <= |used| + 2 && text == Numbered(x, bump, tail)
    ensures TextKey(text) !in used
    ensures AllUsed(NumberedKeys(x, tail), bump, used)
  {
    var n := 2;
    text := Numbered(x, n, tail);
    while TextKey(text) in used
      invariant 2 <= n <= |used| + 2 && text == Numbered(x, n, tail)
      invariant AllUsed(NumberedKeys(x, tail), n, used)
      decreases |used| + 2 - n
    {
      OneMoreUsed(x, tail, n, used, text);
      StillFinite(x, tail, n + 1, used);
      n := n + 1;
      text := Numbered(x, n, tail);
    }
    bump := n;
  }

  lemma AppendedLonger(text: string, bump: nat)
    ensures |TextKey(text + " (" + Decimal(bump) + ")")| > |TextKey(text)|
  {
    var d := "(" + Decimal(bump) + ")";
    assert text + " (" + Decimal(bump) + ")" == text + " " + d;
    assert forall c <- d :: !IsBlank(c);
    KeySnoc(text, d);
  }

  lemma OneMore(used: set<string>, seen: set<string>, key: string)
    requires seen <= used && key in used && key !in seen
    ensures seen + {key} <= used && |used - (seen + {key})| < |used - seen|
  {
    assert used - (seen + {key}) == (used - seen) - {key};
  }

  ghost predicate Shorter(keys: set<string>, n: nat) {
    forall k <- keys :: |k| < n
  }

  /** The headline loop appends a number to what it has already made, so its keys only get longer. */
  method FirstFreeAppended(start: string, used: set<string>) returns (text: string)
    ensures TextKey(text) !in used
    ensures TextKey(start) !in used ==> text == start
    ensures start <= text
  {
    text := start;
    var bump := 2;
    ghost var seen: set<string> := {};
    while TextKey(text) in used
      invariant start <= text
      invariant text == start || TextKey(start) in used
      invariant seen <= used && Shorter(seen, |TextKey(text)|)
      decreases |used - seen|
    {
      AppendedLonger(text, bump);
      OneMore(used, seen, TextKey(text));
      seen := seen + {TextKey(text)};
      text := text + " (" + Decimal(bump) + ")";
      bump := bump + 1;
    }
  }

  // ----- one item after the other

  ghost predicate Unrepeated(keys: seq<string>) {
    forall i, j :: 0 <= i < j < |keys| ==> keys[i] != keys[j]
  }

  function Keys(texts: seq<string>): (keys: seq<string>)
    ensures |keys| == |texts|
  {
    seq(|texts|, i requires 0 <= i < |texts| => TextKey(texts[i]))
  }

  lemma KeysSnoc(texts: seq<string>, text: string)
    ensures Keys(texts + [text]) == Keys(texts) + [TextKey(text)]
  {
  }

  /** The used keys are those of the texts so far, and these are pairwise different. */
  ghost predicate Fresh(keys: seq<string>, used: set<string>) {
    Unrepeated(keys) && forall k :: k in used <==> k in keys
  }

  lemma FreshSnoc(keys: seq<string>, used: set<string>, key: string)
    requires Fresh(keys, used) && key !in used
    ensures Fresh(keys + [key], used + {key})
  {
    forall i | 0 <= i < |keys| ensures keys[i] != key {
      assert keys[i] in keys;
    }
  }

  datatype Item = Item(topic: string, cta: string, headline: string)

  function Strip(s: string): (t: string)
  {
    if s == "" then s
    else if IsBlank(s[0]) then Strip(s[1..])
    else if IsBlank(s[|s| - 1]) then Strip(s[..|s| - 1])
    else s
  }

  const ANGLES: seq<string> :=
    ["How-to", "FAQ", "Behind the Scenes", "Customer Story", "Offer Spotlight", "Checklist", "Comparison"]

  const WEEKDAYS: seq<string> :=
    ["Monday", "Tuesday", "Wednesday", "Thursday", "Friday", "Saturday", "Sunday"]

  /** What comes before and after the topic in a generated headline. */
  const HEADLINES: seq<(string, string)> :=
    [("Discover the benefits of ", ""), ("How to get started with ", ""), ("Common mistakes to avoid with ", ""),
     ("Real examples: ", ""), ("Quick guide: ", ""), ("What makes ", " different"), ("Before you start: ", "")]

  function BaseTopic(own: string, seeds: seq<string>, idx: nat): string {
    if Strip(own) != "" then Strip(own)
    else if seeds != [] then seeds[idx % |seeds|]
    else "Update " + Decimal(idx + 1)
  }

  function AngledTopic(own: string, seeds: seq<string>, idx: nat): string {
    (if seeds != [] then seeds[idx % |seeds|] else BaseTopic(own, seeds, idx)) + ": " + ANGLES[idx % |ANGLES|]
  }

  ghost predicate FirstNumbered(text: string, x: string, tail: string, used: set<string>) {
    exists n :: n >= 2 && text == Numbered(x, n, tail) && AllUsed(NumberedKeys(x, tail), n, used)
  }

  /** The item's own topic if it is unused, else a seed under an angle, else that with the first number
      that makes it unused. */
  method VaryTopic(own: string, seeds: seq<string>, idx: nat, used: set<string>) returns (topic: string)
    ensures TextKey(topic) !in used
    ensures topic == BaseTopic(own, seeds, idx) || TextKey(BaseTopic(own, seeds, idx)) in used
    ensures topic == BaseTopic(own, seeds, idx) || topic == AngledTopic(own, seeds, idx)
         || (TextKey(AngledTopic(own, seeds, idx)) in used
             && FirstNumbered(topic, AngledTopic(own, seeds, idx), "", used))
  {
    topic := BaseTopic(own, seeds, idx);
    if TextKey(topic) in used {
      topic := AngledTopic(own, seeds, idx);
      if TextKey(topic) in used {
        var free, bump := FirstFree(topic, "", used);
        topic := free;
      }
    }
  }

  /** The distinct candidates among the first `i`. */
  ghost predicate DistinctSoFar(candidates: seq<string>, i: nat, kept: seq<string>, keys: set<string>) {
    && i <= |candidates| && Fresh(Keys(kept), keys)
    && (forall j :: 0 <= j < i ==> TextKey(candidates[j]) == "" || TextKey(candidates[j]) in keys)
    && (forall c <- kept :: c in candidates)
    && (i == 0 ==> kept == [])
    && (i >= 1 && TextKey(candidates[0]) != "" ==> kept != [] && kept[0] == candidates[0])
  }

  lemma DistinctSkips(candidates: seq<string>, i: nat, kept: seq<string>, keys: set<string>)
    requires DistinctSoFar(candidates, i, kept, keys) && i < |candidates|
    requires TextKey(candidates[i]) == "" || TextKey(candidates[i]) in keys
    ensures DistinctSoFar(candidates, i + 1, kept, keys)
  {
    if i == 0 {
      NoKeysYet(kept, keys);
    }
  }

  lemma NoKeysYet(kept: seq<string>, keys: set<string>)
    requires kept == [] && Fresh(Keys(kept), keys)
    ensures keys == {}
  {
    assert Keys(kept) == [];
    assert forall k <- keys :: k in Keys(kept);
  }

  lemma DistinctTakes(candidates: seq<string>, i: nat, kept: seq<string>, keys: set<string>)
    requires DistinctSoFar(candidates, i, kept, keys) && i < |candidates| && TextKey(candidates[i]) !in keys
    ensures DistinctSoFar(candidates, i + 1, kept + [candidates[i]], keys + {TextKey(candidates[i])})
  {
    KeysSnoc(kept, candidates[i]);
    FreshSnoc(Keys(kept), keys, TextKey(candidates[i]));
    forall c | c in kept + [candidates[i]] ensures c in candidates {
      assert c in kept || c == candidates[i];
    }
  }

  lemma DistinctDone(candidates: seq<string>, kept: seq<string>, keys: set<string>)
    requires DistinctSoFar(candidates, |candidates|, kept, keys)
    ensures Unrepeated(Keys(kept))
    ensures forall c <- candidates :: TextKey(c) == "" || TextKey(c) in Keys(kept)
  {
  }

  /** The candidates whose key is not empty and not that of an earlier candidate. */
  method DistinctByKey(candidates: seq<string>) returns (kept: seq<string>)
    ensures Unrepeated(Keys(kept))
    ensures forall c <- candidates :: TextKey(c) == "" || TextKey(c) in Keys(kept)
    ensures forall c <- kept :: c in candidates
    ensures candidates != [] && TextKey(candidates[0]) != "" ==> kept != [] && kept[0] == candidates[0]
  {
    kept := [];
    var keys: set<string> := {};
    for i := 0 to |candidates|
      invariant DistinctSoFar(candidates, i, kept, keys)
    {
      var key := TextKey(candidates[i]);
      if key != "" && key !in keys {
        DistinctTakes(candidates, i, kept, keys);
        kept := kept + [candidates[i]];
        keys := keys + {key};
      } else {
        DistinctSkips(candidates, i, kept, keys);
      }
    }
    DistinctDone(candidates, kept, keys);
  }

  lemma LearnMoreHasKey()
    ensures TextKey("Learn more") != ""
  {
    assert "Learn" + " " + "more" == "Learn more";
    KeySnoc("Learn", "more");
  }

  function CtaCandidates(defaultCta: string): (cs: seq<string>)
    ensures |cs| == 7 && cs[0] == (if defaultCta != "" then defaultCta else "Learn more") && "Learn more" in cs
  {
    var cs := [if defaultCta != "" then defaultCta else "Learn more",
               "Learn more", "Start now", "Book today", "See examples", "Try now", "Join today"];
    assert cs[1] == "Learn more";
    cs
  }

  /** The distinct calls to action to fall back on, the default first. */
  method CtaCycle(defaultCta: string) returns (cycle: seq<string>)
    ensures cycle != []
    ensures defaultCta != "" && TextKey(defaultCta) != "" ==> cycle[0] == defaultCta
    ensures Unrepeated(Keys(cycle)) && forall c <- cycle :: c in CtaCandidates(defaultCta)
  {
    LearnMoreHasKey();
    cycle := DistinctByKey(CtaCandidates(defaultCta));
  }

  function DayCta(defaultCta: string, idx: nat): string {
    (if defaultCta != "" then defaultCta else "Learn more") + " (" + WEEKDAYS[idx % |WEEKDAYS|]
  }

  lemma NonZeroMultiple(n: nat, d: int)
    requires n > 0 && d != 0
    ensures n * d >= n || n * d + n <= 0
  {
    if d >= 1 {
      assert n * (d - 1) >= 0;
    } else {
      assert n * (-d - 1) >= 0;
    }
  }

  lemma ModuloMultiple(j: nat, v: nat, q: int, n: nat)
    requires j < n && v == j + q * n
    ensures v % n == j
  {
    var d: int := v / n - q;
    assert n * d == j - v % n;
    if d != 0 {
      NonZeroMultiple(n, d);
    }
  }

  function CycleAt(cycle: seq<string>, p: nat): string
    requires cycle != []
  {
    cycle[p % |cycle|]
  }

  /** Every candidate of the cycle comes up within one turn from `start`. */
  lemma ComesUp(cycle: seq<string>, start: nat, j: nat) returns (p: nat)
    requires j < |cycle|
    ensures start < p <= start + |cycle| && CycleAt(cycle, p) == cycle[j]
  {
    var off: int := j - start - 1;
    var q: int := off / |cycle|;
    p := start + 1 + off % |cycle|;
    ModuloMultiple(j, p, -q, |cycle|);
  }

  ghost predicate TurnUsed(cycle: seq<string>, start: nat, end: nat, used: set<string>)
    requires cycle != []
  {
    forall p :: start < p < end ==> TextKey(CycleAt(cycle, p)) in used
  }

  ghost predicate CycleUsed(cycle: seq<string>, used: set<string>) {
    forall c <- cycle :: TextKey(c) in used
  }

  lemma WholeTurn(cycle: seq<string>, start: nat, used: set<string>)
    requires cycle != [] && TurnUsed(cycle, start, start + |cycle| + 1, used)
    ensures CycleUsed(cycle, used)
  {
    forall c | c in cycle ensures TextKey(c) in used {
      var j :| 0 <= j < |cycle| && cycle[j] == c;
      var p := ComesUp(cycle, start, j);
    }
  }

  ghost predicate NextFreeAt(cycle: seq<string>, idx: nat, used: set<string>, cta: string, p: nat)
    requires cycle != []
  {
    idx < p <= idx + |cycle| && cta == CycleAt(cycle, p) && TurnUsed(cycle, idx, p, used)
  }

  /** The call to action is the first unused one of the cycle after `idx`. */
  ghost predicate NextFree(cycle: seq<string>, idx: nat, used: set<string>, cta: string)
    requires cycle != []
  {
    exists p: nat :: NextFreeAt(cycle, idx, used, cta, p)
  }

  /** The first candidate of the cycle after `idx` whose key is unused, if there is one. */
  method NextInCycle(cycle: seq<string>, idx: nat, used: set<string>) returns (found: Option<string>)
    requires cycle != []
    ensures found.Some? ==> found.value in cycle && TextKey(found.value) !in used
    ensures found.Some? ==> NextFree(cycle, idx, used, found.value)
    ensures found.None? ==> CycleUsed(cycle, used)
  {
    for offset := 1 to |cycle| + 1
      invariant TurnUsed(cycle, idx, idx + offset, used)
    {
      var candidate := CycleAt(cycle, idx + offset);
      if TextKey(candidate) !in used {
        assert NextFreeAt(cycle, idx, used, candidate, idx + offset);
        return Some(candidate);
      }
    }
    WholeTurn(cycle, idx, used);
    return None;
  }

  /** The item's own call to action if it is new and not the one before, else one of the cycle, and
      only when the whole cycle is used up the default with the day, numbered if need be. `previous`
      is the key of the item before. */
  method VaryCta(own: string, defaultCta: string, cycle: seq<string>, previous: Option<string>, idx: nat,
                 used: set<string>)
    returns (cta: string)
    requires cycle != []
    ensures TextKey(cta) !in used
    ensures (Strip(own) != "" && TextKey(Strip(own)) !in used && previous != Some(TextKey(Strip(own)))) ==>
      cta == Strip(own)
    ensures cta == Strip(own) || cta == CycleAt(cycle, idx) || (|cycle| > 1 && NextFree(cycle, idx, used, cta))
         || ((|cycle| > 1 ==> CycleUsed(cycle, used))
             && (cta == DayCta(defaultCta, idx) + ")" || FirstNumbered(cta, DayCta(defaultCta, idx), ")", used)))
  {
    cta := Strip(own);
    if cta == "" || previous == Some(TextKey(cta)) {
      cta := CycleAt(cycle, idx);
    }
    if TextKey(cta) in used && |cycle| > 1 {
      var found := NextInCycle(cycle, idx, used);
      if found.Some? {
        cta := found.value;
      }
    }
    if TextKey(cta) in used {
      cta := DayCta(defaultCta, idx) + ")";
      if TextKey(cta) in used {
        var free, bump := FirstFree(DayCta(defaultCta, idx), ")", used);
        cta := free;
      }
    }
  }

  function TemplateHeadline(topic: string, idx: nat): string {
    var template := HEADLINES[idx % |HEADLINES|];
    template.0 + topic + template.1
  }

  /** The item's own headline if it is unused, else the template of its position, lengthened only when
      that is used too. */
  method VaryHeadline(own: string, topic: string, idx: nat, used: set<string>) returns (headline: string)
    ensures TextKey(headline) !in used
    ensures Strip(own) != "" && TextKey(Strip(own)) !in used ==> headline == Strip(own)
    ensures headline == Strip(own) || TemplateHeadline(topic, idx) <= headline
    ensures headline == Strip(own) || headline == TemplateHeadline(topic, idx)
         || TextKey(TemplateHeadline(topic, idx)) in used
  {
    headline := Strip(own);
    if headline == "" || TextKey(headline) in used {
      headline := FirstFreeAppended(TemplateHeadline(topic, idx), used);
    }
  }

  function Topics(items: seq<Item>): (ts: seq<string>)
    ensures |ts| == |items|
  {
    seq(|items|, i requires 0 <= i < |items| => items[i].topic)
  }

  function Ctas(items: seq<Item>): (ts: seq<string>)
    ensures |ts| == |items|
  {
    seq(|items|, i requires 0 <= i < |items| => items[i].cta)
  }

  function Headlines(items: seq<Item>): (ts: seq<string>)
    ensures |ts| == |items|
  {
    seq(|items|, i requires 0 <= i < |items| => items[i].headline)
  }

  /** A text that is not blank and whose key is new is kept. */
  ghost predicate Kept(owns: seq<string>, texts: seq<string>) {
    |texts| <= |owns| && forall i :: 0 <= i < |texts| ==> KeptAt(owns[i], texts[i], Keys(texts[..i]))
  }

  ghost predicate KeptAt(own: string, text: string, earlier: seq<string>) {
    Strip(own) != "" && TextKey(Strip(own)) !in earlier ==> text == Strip(own)
  }

  lemma KeptSnoc(owns: seq<string>, texts: seq<string>, text: string)
    requires Kept(owns, texts) && |texts| < |owns|
    requires KeptAt(owns[|texts|], text, Keys(texts))
    ensures Kept(owns, texts + [text])
  {
    var longer := texts + [text];
    forall i | 0 <= i < |longer| ensures KeptAt(owns[i], longer[i], Keys(longer[..i])) {
      assert longer[..i] == texts[..i];
      assert texts[..|texts|] == texts;
    }
  }

  /** One column of the table so far. */
  ghost predicate Column(owns: seq<string>, texts: seq<string>, used: set<string>) {
    Kept(owns, texts) && Fresh(Keys(texts), used)
  }

  lemma ColumnSnoc(owns: seq<string>, texts: seq<string>, used: set<string>, text: string)
    requires Column(owns, texts, used) && |texts| < |owns|
    requires TextKey(text) !in used
    requires Strip(owns[|texts|]) != "" && TextKey(Strip(owns[|texts|])) !in used ==> text == Strip(owns[|texts|])
    ensures Column(owns, texts + [text], used + {TextKey(text)})
  {
    KeptSnoc(owns, texts, text);
    KeysSnoc(texts, text);
    FreshSnoc(Keys(texts), used, TextKey(text));
  }

  lemma ColumnsSnoc(out: seq<Item>, it: Item)
    ensures Topics(out + [it]) == Topics(out) + [it.topic]
    ensures Ctas(out + [it]) == Ctas(out) + [it.cta]
    ensures Headlines(out + [it]) == Headlines(out) + [it.headline]
  {
  }

  lemma LastCtaIsUsed(out: seq<Item>, used: set<string>)
    requires out != [] && Fresh(Keys(Ctas(out)), used)
    ensures TextKey(out[|out| - 1].cta) in used
  {
    var keys := Keys(Ctas(out));
    var k := |out| - 1;
    assert Ctas(out)[k] == out[k].cta;
    assert keys[k] == TextKey(Ctas(out)[k]) && keys[k] in keys;
  }

  /** At most seven items, no two of them with the same topic, call to action or headline up to case
      and blanks; whatever text an item brings that is new is kept. */
  method ApplyVariation(items: seq<Item>, seeds: seq<string>, defaultCta: string) returns (out: seq<Item>)
    ensures |out| == if |items| <= 7 then |items| else 7
    ensures Unrepeated(Keys(Topics(out))) && Unrepeated(Keys(Ctas(out))) && Unrepeated(Keys(Headlines(out)))
    ensures Kept(Topics(items), Topics(out)) && Kept(Ctas(items), Ctas(out))
    ensures Kept(Headlines(items), Headlines(out))
  {
    var cycle := CtaCycle(defaultCta);
    out := [];
    var usedTopics: set<string> := {};
    var usedCtas: set<string> := {};
    var usedHeadlines: set<string> := {};
    for idx := 0 to if |items| <= 7 then |items| else 7
      invariant |out| == idx
      invariant Column(Topics(items), Topics(out), usedTopics)
      invariant Column(Ctas(items), Ctas(out), usedCtas)
      invariant Column(Headlines(items), Headlines(out), usedHeadlines)
    {
      var topic := VaryTopic(items[idx].topic, seeds, idx, usedTopics);
      var previous := if out == [] then None else Some(TextKey(out[|out| - 1].cta));
      if out != [] {
        LastCtaIsUsed(out, usedCtas);
      }
      var cta := VaryCta(items[idx].cta, defaultCta, cycle, previous, idx, usedCtas);
      var headline := VaryHeadline(items[idx].headline, topic, idx, usedHeadlines);
      ColumnSnoc(Topics(items), Topics(out), usedTopics, topic);
      ColumnSnoc(Ctas(items), Ctas(out), usedCtas, cta);
      ColumnSnoc(Headlines(items), Headlines(out), usedHeadlines, headline);
      ColumnsSnoc(out, Item(topic, cta, headline));
      out := out + [Item(topic, cta, headline)];
      usedTopics := usedTopics + {TextKey(topic)};
      usedCtas := usedCtas + {TextKey(cta)};
      usedHeadlines := usedHeadlines + {TextKey(headline)};
    }
  }
}
