/** The deterministic chat composer: policy, citations, and the replacement of prohibited output terms. */
module Composer {
  import opened Prelude
  import opened Sorting

  // ---- Literal replacement ----

  datatype Rule = Rule(term: string, replacement: string)

  const RULES := [
    Rule("수익 보장", "성과 단정 회피"),
    Rule("목표가", "특정 가격 지점"),
    Rule("진입가", "진입 가격 지점"),
    Rule("손절가", "손실 제한 가격 지점"),
    Rule("매수", "거래 실행"),
    Rule("매도", "거래 정리")
  ]

  predicate Occurs(t: string, s: string) {
    t <= s || (s != "" && Occurs(t, s[1..]))
  }

  /** Python's str.replace: leftmost occurrences, not overlapping, from left to right. */
  function Replace(s: string, term: string, replacement: string): string
    requires term != ""
  {
    if term <= s then replacement + Replace(s[|term|..], term, replacement)
    else if s == "" then ""
    else [s[0]] + Replace(s[1..], term, replacement)
  }

  /** The six replacements in order. */
  function Apply(s: string, rules: seq<Rule>): string
    requires forall rule :: rule in rules ==> rule.term != ""
  {
    if rules == [] then s
    else
      var last := rules[|rules| - 1];
      Replace(Apply(s, rules[..|rules| - 1]), last.term, last.replacement)
  }

  /** Wherever a term is laid partly over a replacement, some character clashes. */
  ghost predicate Clashes(term: string, replacement: string) {
    term != "" && forall d :: -|term| < d < |replacement| ==> ClashAt(term, replacement, d)
  }

  ghost predicate ClashAt(term: string, replacement: string, d: int) {
    exists i :: 0 <= i < |term| && 0 <= d + i < |replacement| && term[i] != replacement[d + i]
  }

  lemma Blocked(u: string, replacement: string, k: nat, j: nat, rest: string)
    requires Clashes(u, replacement) && (k == 0 || j == 0) && k < |u| && j < |replacement|
    ensures !(u[k..] <= replacement[j..] + rest)
  {
    assert ClashAt(u, replacement, j - k);
    var i :| 0 <= i < |u| && 0 <= j - k + i < |replacement| && u[i] != replacement[j - k + i];
    assert i - k < |u[k..]| && u[k..][i - k] == u[i];
    assert (replacement[j..] + rest)[i - k] == replacement[j - k + i];
  }

  /** A suffix of a term that starts the output started the input. */
  lemma {:induction false} SuffixSurvives(s: string, term: string, replacement: string, u: string, k: nat)
    requires term != "" && replacement != "" && Clashes(u, replacement) && k <= |u|
    requires u[k..] <= Replace(s, term, replacement)
    ensures u[k..] <= s
    decreases |s|
  {
    if k < |u| {
      if term <= s {
        Blocked(u, replacement, k, 0, Replace(s[|term|..], term, replacement));
      } else if s != "" {
        var rest := Replace(s[1..], term, replacement);
        assert u[k..][1..] == u[k + 1..];
        assert u[k..][1..] <= ([s[0]] + rest)[1..];
        SuffixSurvives(s[1..], term, replacement, u, k + 1);
        assert u[k..] == [u[k]] + u[k + 1..];
      }
    }
  }

  /** No occurrence starts inside a replacement. */
  lemma {:induction false} NoneInside(u: string, replacement: string, j: nat, rest: string)
    requires Clashes(u, replacement) && j <= |replacement| && Occurs(u, replacement[j..] + rest)
    ensures Occurs(u, rest)
    decreases |replacement| - j
  {
    var here := replacement[j..] + rest;
    if j == |replacement| {
      assert here == rest;
    } else {
      Blocked(u, replacement, 0, j, rest);
      assert u[0..] == u;
      assert here[1..] == replacement[j + 1..] + rest;
      NoneInside(u, replacement, j + 1, rest);
    }
  }

  lemma {:induction false} OccursLater(u: string, s: string, k: nat)
    requires k <= |s| && Occurs(u, s[k..])
    ensures Occurs(u, s)
  {
    if k > 0 {
      assert s[k - 1..][1..] == s[k..];
      OccursLater(u, s, k - 1);
    }
  }

  /** A replacement brings in no term that clashes with it. */
  lemma {:induction false} KeepsAbsent(s: string, term: string, replacement: string, u: string)
    requires term != "" && replacement != "" && Clashes(u, replacement)
    requires Occurs(u, Replace(s, term, replacement))
    ensures Occurs(u, s)
    ensures u != term
    decreases |s|
  {
    if term <= s {
      var rest := Replace(s[|term|..], term, replacement);
      assert replacement[0..] + rest == Replace(s, term, replacement);
      NoneInside(u, replacement, 0, rest);
      KeepsAbsent(s[|term|..], term, replacement, u);
      OccursLater(u, s, |term|);
    } else if s != "" {
      var rest := Replace(s[1..], term, replacement);
      assert ([s[0]] + rest)[1..] == rest;
      if u <= Replace(s, term, replacement) {
        assert u[0..] == u;
        SuffixSurvives(s, term, replacement, u, 0);
      } else {
        KeepsAbsent(s[1..], term, replacement, u);
      }
    }
  }

  lemma {:induction false} NothingToReplace(s: string, term: string, replacement: string)
    requires term != "" && !Occurs(term, s)
    ensures Replace(s, term, replacement) == s
  {
    if s != "" { NothingToReplace(s[1..], term, replacement); }
  }

  /** Every term clashes with its own replacement and with the later ones. */
  ghost predicate Compatible(rules: seq<Rule>) {
    && (forall i :: 0 <= i < |rules| ==> rules[i].term != "" && rules[i].replacement != "")
    && (forall i, j :: 0 <= i <= j < |rules| ==> Clashes(rules[i].term, rules[j].replacement))
  }

  ghost predicate Free(s: string, rules: seq<Rule>) {
    forall i :: 0 <= i < |rules| ==> !Occurs(rules[i].term, s)
  }

  /** Compatible rules applied in order leave none of their terms. */
  lemma {:induction false} ApplyFrees(s: string, rules: seq<Rule>)
    requires Compatible(rules)
    ensures Free(Apply(s, rules), rules)
  {
    if rules != [] {
      var n := |rules| - 1;
      var before, last := Apply(s, rules[..n]), rules[n];
      assert forall i :: 0 <= i < n ==> rules[..n][i] == rules[i];
      ApplyFrees(s, rules[..n]);
      forall i | 0 <= i <= n ensures !Occurs(rules[i].term, Apply(s, rules)) {
        if i < n { assert !Occurs(rules[..n][i].term, before); }
        if Occurs(rules[i].term, Apply(s, rules)) { KeepsAbsent(before, last.term, last.replacement, rules[i].term); }
      }
    }
  }

  lemma {:induction false} ApplyKeepsFree(s: string, rules: seq<Rule>)
    requires (forall rule :: rule in rules ==> rule.term != "") && Free(s, rules)
    ensures Apply(s, rules) == s
  {
    if rules != [] {
      var n := |rules| - 1;
      assert forall i :: 0 <= i < n ==> rules[..n][i] == rules[i];
      ApplyKeepsFree(s, rules[..n]);
      NothingToReplace(s, rules[n].term, rules[n].replacement);
    }
  }

  function Neutralize(s: string): string {
    Apply(s, RULES)
  }

  /** The output holds none of the six terms; a second pass changes nothing; and the text is left alone exactly when it
      held none. */
  lemma NeutralizeFrees(s: string)
    ensures Free(Neutralize(s), RULES)
    ensures Neutralize(Neutralize(s)) == Neutralize(s)
    ensures Neutralize(s) == s <==> Free(s, RULES)
  {
    RulesCompatible();
    ApplyFrees(s, RULES);
    ApplyKeepsFree(Neutralize(s), RULES);
    if Free(s, RULES) { ApplyKeepsFree(s, RULES); }
  }

  lemma RulesCompatible()
    ensures Compatible(RULES)
  {
    forall i, j | 0 <= i <= j < |RULES| ensures Clashes(RULES[i].term, RULES[j].replacement) {
      RulePairClashes(i, j);
    }
  }

  /** In fact every term clashes with every replacement. */
  lemma RulePairClashes(i: nat, j: nat)
    requires i < |RULES| && j < |RULES|
    ensures Clashes(RULES[i].term, RULES[j].replacement)
  {
    if i == 0 { CertaintyEndsClash(i, j); }
    else if i == 1 { TargetEndsClash(i, j); }
    else if i < 4 { PriceEndsClash(i, j); }
    else { TradeEndsClash(i, j); }
    EndsSuffice(RULES[i].term, RULES[j].replacement);
  }

  /** At this alignment the first character of the overlap clashes, or the term's last one does. */
  ghost predicate EndsClashAt(t: string, r: string, d: int)
    requires t != "" && r != "" && -|t| < d < |r|
  {
    var at := if d >= 0 then 0 else -d;
    t[at] != r[d + at] || (0 <= d + |t| - 1 < |r| && t[|t| - 1] != r[d + |t| - 1])
  }

  lemma EndsSuffice(t: string, r: string)
    requires t != "" && r != "" && forall d :: -|t| < d < |r| ==> EndsClashAt(t, r, d)
    ensures Clashes(t, r)
  {
    forall d | -|t| < d < |r| ensures ClashAt(t, r, d) {
      assert EndsClashAt(t, r, d);
    }
  }

  lemma CertaintyEndsClash(i: nat, j: nat)
    requires i == 0 && j < |RULES|
    ensures var t, r := RULES[i].term, RULES[j].replacement;
            t != "" && r != "" && forall d :: -|t| < d < |r| ==> EndsClashAt(t, r, d)
  {}

  lemma TargetEndsClash(i: nat, j: nat)
    requires i == 1 && j < |RULES|
    ensures var t, r := RULES[i].term, RULES[j].replacement;
            t != "" && r != "" && forall d :: -|t| < d < |r| ==> EndsClashAt(t, r, d)
  {}

  lemma PriceEndsClash(i: nat, j: nat)
    requires 2 <= i < 4 && j < |RULES|
    ensures var t, r := RULES[i].term, RULES[j].replacement;
            t != "" && r != "" && forall d :: -|t| < d < |r| ==> EndsClashAt(t, r, d)
  {}

  lemma TradeEndsClash(i: nat, j: nat)
    requires 4 <= i < |RULES| && j < |RULES|
    ensures var t, r := RULES[i].term, RULES[j].replacement;
            t != "" && r != "" && forall d :: -|t| < d < |r| ==> EndsClashAt(t, r, d)
  {}

  method NeutralizeProhibitedOutputTerms(text: string) returns (value: string)
    ensures value == Neutralize(text)
    ensures Free(value, RULES)
  {
    value := text;
    for i := 0 to |RULES|
      invariant value == Apply(text, RULES[..i])
    {
      TakeOneMore(RULES, i);
      assert RULES[..i + 1][..i] == RULES[..i];
      value := Replace(value, RULES[i].term, RULES[i].replacement);
    }
    TakeAll(RULES);
    NeutralizeFrees(text);
  }

  /** The normaliser's later removal of brackets can bring a term back, so freedom holds of the replacement step
      alone. */
  lemma BracketsCanRejoin()
    ensures Free(Neutralize("매[수"), RULES)
    ensures !Free(Replace(Neutralize("매[수"), "[", ""), RULES)
  {
    var s := "매[수";
    forall i | 0 <= i < |RULES| ensures !Occurs(RULES[i].term, s) { ShortTextIsFree(s, RULES[i].term); }
    NeutralizeFrees(s);
    RejoinedText();
    assert Occurs(RULES[4].term, "매수");
  }

  lemma RejoinedText()
    ensures Replace("매[수", "[", "") == "매수"
  {
    var s, tail := "매[수", "[수";
    assert s[1..] == tail && tail[1..] == "수" && "수"[1..] == "";
    assert "[" <= tail && tail[|"["|..] == "수";
    assert Replace("수", "[", "") == ['수'] + Replace("", "[", "") == "수";
    assert Replace(tail, "[", "") == "" + Replace("수", "[", "") == "수";
    assert Replace(s, "[", "") == ['매'] + Replace(tail, "[", "");
  }

  lemma ShortTextIsFree(s: string, term: string)
    requires |s| == 3 && |term| >= 2 && s[1] !in term
    ensures !Occurs(term, s)
  {
    var tail := s[1..];
    assert term[0] in term && term[1] in term;
    assert tail[1..] == [s[2]] && tail[1..][1..] == "";
    assert !Occurs(term, "") && !Occurs(term, tail[1..]) && !Occurs(term, tail);
  }

  // ---- What the bracket removal can bring back ----

  function DropBrackets(s: string): string {
    if s == "" then ""
    else if s[0] == '[' || s[0] == ']' then DropBrackets(s[1..])
    else [s[0]] + DropBrackets(s[1..])
  }

  /** Removing one character, one step at a time. */
  lemma RemoveStep(s: string, term: string, c: char)
    requires s != "" && term == [c]
    ensures Replace(s, term, "") == if s[0] == c then Replace(s[1..], term, "") else [s[0]] + Replace(s[1..], term, "")
  {
    if s[0] == c {
      assert term <= s && s[|term|..] == s[1..];
      assert "" + Replace(s[1..], term, "") == Replace(s[1..], term, "");
    } else {
      assert !(term <= s);
    }
  }

  /** The normaliser's two replacements drop the brackets. */
  lemma {:induction false} DropIsReplace(s: string)
    ensures Replace(Replace(s, "[", ""), "]", "") == DropBrackets(s)
  {
    if s != "" {
      var rest := Replace(s[1..], "[", "");
      DropIsReplace(s[1..]);
      RemoveStep(s, "[", '[');
      if s[0] != '[' {
        RemoveStep([s[0]] + rest, "]", ']');
        assert ([s[0]] + rest)[1..] == rest;
      }
    }
  }

  /** Two texts that are the same but for blocks in the one where the other has a mark. */
  ghost predicate Aligned(v: string, m: string, blocks: set<string>, mark: char)
    decreases |m|
  {
    || (v == "" && m == "")
    || SameHead(v, m, blocks, mark)
    || exists r :: r in blocks && BlockHead(v, m, r, blocks, mark)
  }

  ghost predicate SameHead(v: string, m: string, blocks: set<string>, mark: char)
    decreases |m|, 0
  {
    v != "" && m != "" && v[0] == m[0] && Aligned(v[1..], m[1..], blocks, mark)
  }

  ghost predicate BlockHead(v: string, m: string, r: string, blocks: set<string>, mark: char)
    decreases |m|, 0
  {
    m != "" && m[0] == mark && r != "" && r <= v && Aligned(v[|r|..], m[1..], blocks, mark)
  }

  /** A text that no block and no mark can take part in. */
  ghost predicate Firm(u: string, blocks: set<string>, mark: char) {
    u != "" && mark !in u && forall r :: r in blocks ==> r != "" && Clashes(u, r)
  }

  lemma {:induction false} AlignedSelf(v: string, blocks: set<string>, mark: char)
    ensures Aligned(v, v, blocks, mark)
  {
    if v != "" {
      AlignedSelf(v[1..], blocks, mark);
      assert SameHead(v, v, blocks, mark);
    }
  }

  /** A block stops a term that would run into it. */
  lemma BlockStops(v: string, m: string, r: string, blocks: set<string>, mark: char, u: string, k: nat)
    requires Firm(u, blocks, mark) && r in blocks && k < |u| && BlockHead(v, m, r, blocks, mark)
    ensures !(u[k..] <= v) && !(u[k..] <= m)
  {
    assert v == r[0..] + v[|r|..];
    Blocked(u, r, k, 0, v[|r|..]);
    assert u[k..][0] == u[k] && u[k] in u;
  }

  /** A term's tail starts both or neither, and leaves aligned rests. */
  lemma {:induction false} PrefixOfBoth(v: string, m: string, blocks: set<string>, mark: char, u: string, k: nat)
    requires Aligned(v, m, blocks, mark) && Firm(u, blocks, mark) && k <= |u|
    ensures u[k..] <= v <==> u[k..] <= m
    ensures u[k..] <= v ==> |u| - k <= |m| && Aligned(v[|u| - k..], m[|u| - k..], blocks, mark)
    decreases |m|
  {
    if k < |u| {
      if SameHead(v, m, blocks, mark) {
        PrefixOfBoth(v[1..], m[1..], blocks, mark, u, k + 1);
        TailOfPrefix(u, k, v);
        TailOfPrefix(u, k, m);
        if u[k..] <= v {
          assert v[1..][|u| - k - 1..] == v[|u| - k..] && m[1..][|u| - k - 1..] == m[|u| - k..];
        }
      } else if v != "" || m != "" {
        var r :| r in blocks && BlockHead(v, m, r, blocks, mark);
        BlockStops(v, m, r, blocks, mark, u, k);
      }
    } else {
      assert u[k..] == "" && v[0..] == v && m[0..] == m;
    }
  }

  lemma TailOfPrefix(u: string, k: nat, v: string)
    requires k < |u| && v != ""
    ensures u[k..] <= v <==> u[k] == v[0] && u[k + 1..] <= v[1..]
  {
    assert u[k..] == [u[k]] + u[k + 1..];
    assert v == [v[0]] + v[1..];
  }

  /** A replacement goes past a block. */
  lemma {:induction false} ReplacePastBlock(r: string, j: nat, rest: string, u: string, replacement: string)
    requires Clashes(u, r) && j <= |r|
    ensures Replace(r[j..] + rest, u, replacement) == r[j..] + Replace(rest, u, replacement)
    decreases |r| - j
  {
    var here := r[j..] + rest;
    if j == |r| {
      assert here == rest;
    } else {
      Blocked(u, r, 0, j, rest);
      assert u[0..] == u;
      assert here[0] == r[j] && here[1..] == r[j + 1..] + rest;
      ReplacePastBlock(r, j + 1, rest, u, replacement);
      assert r[j..] == [r[j]] + r[j + 1..];
    }
  }

  lemma AlignedBlock(v: string, m: string, r: string, blocks: set<string>, mark: char)
    requires Aligned(v, m, blocks, mark) && r in blocks && r != ""
    ensures Aligned(r + v, [mark] + m, blocks, mark)
  {
    assert (r + v)[|r|..] == v && ([mark] + m)[1..] == m;
    assert BlockHead(r + v, [mark] + m, r, blocks, mark);
  }

  lemma AlignedHead(c: char, v: string, m: string, blocks: set<string>, mark: char)
    requires Aligned(v, m, blocks, mark)
    ensures Aligned([c] + v, [c] + m, blocks, mark)
  {
    assert ([c] + v)[1..] == v && ([c] + m)[1..] == m;
    assert SameHead([c] + v, [c] + m, blocks, mark);
  }

  /** Replacing a term by a block in the one and by the mark in the other keeps the texts aligned. */
  lemma {:induction false} ReplaceAligned(
      v: string, m: string, blocks: set<string>, mark: char, u: string, replacement: string)
    requires Aligned(v, m, blocks, mark) && Firm(u, blocks, mark) && replacement in blocks
    ensures Aligned(Replace(v, u, replacement), Replace(m, u, [mark]), blocks, mark)
    decreases |m|
  {
    PrefixOfBoth(v, m, blocks, mark, u, 0);
    assert u[0..] == u;
    if u <= v {
      ReplaceAligned(v[|u|..], m[|u|..], blocks, mark, u, replacement);
      AlignedBlock(Replace(v[|u|..], u, replacement), Replace(m[|u|..], u, [mark]), replacement, blocks, mark);
    } else if SameHead(v, m, blocks, mark) {
      ReplaceAligned(v[1..], m[1..], blocks, mark, u, replacement);
      AlignedHead(v[0], Replace(v[1..], u, replacement), Replace(m[1..], u, [mark]), blocks, mark);
    } else if v != "" || m != "" {
      var r :| r in blocks && BlockHead(v, m, r, blocks, mark);
      ReplaceAligned(v[|r|..], m[1..], blocks, mark, u, replacement);
      assert v == r[0..] + v[|r|..] && r[0..] == r;
      ReplacePastBlock(r, 0, v[|r|..], u, replacement);
      AlignedBlock(Replace(v[|r|..], u, replacement), Replace(m[1..], u, [mark]), r, blocks, mark);
    }
  }

  lemma {:induction false} DropPastBlock(r: string, j: nat, rest: string)
    requires '[' !in r && ']' !in r && j <= |r|
    ensures DropBrackets(r[j..] + rest) == r[j..] + DropBrackets(rest)
    decreases |r| - j
  {
    var here := r[j..] + rest;
    if j == |r| {
      assert here == rest;
    } else {
      assert here[0] == r[j] && here[1..] == r[j + 1..] + rest;
      DropPastBlock(r, j + 1, rest);
      assert r[j..] == [r[j]] + r[j + 1..];
    }
  }

  lemma {:induction false} DropAligned(v: string, m: string, blocks: set<string>, mark: char)
    requires Aligned(v, m, blocks, mark) && mark != '[' && mark != ']'
    requires forall r :: r in blocks ==> '[' !in r && ']' !in r
    ensures Aligned(DropBrackets(v), DropBrackets(m), blocks, mark)
    decreases |m|
  {
    if SameHead(v, m, blocks, mark) {
      DropAligned(v[1..], m[1..], blocks, mark);
      AlignedHead(v[0], DropBrackets(v[1..]), DropBrackets(m[1..]), blocks, mark);
    } else if v != "" || m != "" {
      var r :| r in blocks && BlockHead(v, m, r, blocks, mark);
      DropAligned(v[|r|..], m[1..], blocks, mark);
      assert v == r[0..] + v[|r|..] && r[0..] == r;
      DropPastBlock(r, 0, v[|r|..]);
      AlignedBlock(DropBrackets(v[|r|..]), DropBrackets(m[1..]), r, blocks, mark);
    }
  }

  /** Aligned texts hold the same firm terms. */
  lemma {:induction false} OccursInBoth(v: string, m: string, blocks: set<string>, mark: char, u: string)
    requires Aligned(v, m, blocks, mark) && Firm(u, blocks, mark)
    ensures Occurs(u, v) <==> Occurs(u, m)
    decreases |m|
  {
    PrefixOfBoth(v, m, blocks, mark, u, 0);
    assert u[0..] == u;
    if SameHead(v, m, blocks, mark) {
      OccursInBoth(v[1..], m[1..], blocks, mark, u);
    } else if v != "" || m != "" {
      var r :| r in blocks && BlockHead(v, m, r, blocks, mark);
      OccursInBoth(v[|r|..], m[1..], blocks, mark, u);
      BlockStops(v, m, r, blocks, mark, u, 0);
      assert v == r[0..] + v[|r|..];
      if Occurs(u, v) { NoneInside(u, r, 0, v[|r|..]); }
      if Occurs(u, v[|r|..]) { OccursLater(u, v, |r|); }
    }
  }

  /** The same terms, each cut out and a mark left in its place. */
  function Cutting(rules: seq<Rule>, mark: char): (r: seq<Rule>)
    ensures |r| == |rules|
    ensures (forall rule :: rule in rules ==> rule.term != "") ==> forall rule :: rule in r ==> rule.term != ""
  {
    seq(|rules|, i requires 0 <= i < |rules| => Rule(rules[i].term, [mark]))
  }

  function Replacements(rules: seq<Rule>): set<string> {
    set rule | rule in rules :: rule.replacement
  }

  /** No term, whole or in part, can run into a replacement, a mark or a bracket. */
  ghost predicate FirmRules(rules: seq<Rule>, mark: char) {
    && (forall rule :: rule in rules ==> rule.term != "")
    && (forall i :: 0 <= i < |rules| ==> Firm(rules[i].term, Replacements(rules), mark))
    && (forall r :: r in Replacements(rules) ==> '[' !in r && ']' !in r)
    && mark != '[' && mark != ']'
  }

  lemma {:induction false} ApplyAligned(s: string, rules: seq<Rule>, k: nat, mark: char)
    requires k <= |rules| && FirmRules(rules, mark)
    ensures Aligned(Apply(s, rules[..k]), Apply(s, Cutting(rules, mark)[..k]), Replacements(rules), mark)
  {
    var cutting := Cutting(rules, mark);
    if k == 0 {
      AlignedSelf(s, Replacements(rules), mark);
    } else {
      ApplyAligned(s, rules, k - 1, mark);
      assert rules[..k][..k - 1] == rules[..k - 1] && cutting[..k][..k - 1] == cutting[..k - 1];
      assert rules[k - 1] in rules;
      ReplaceAligned(Apply(s, rules[..k - 1]), Apply(s, cutting[..k - 1]), Replacements(rules), mark,
                     rules[k - 1].term, rules[k - 1].replacement);
    }
  }

  lemma FreeOfBoth(v: string, m: string, rules: seq<Rule>, mark: char)
    requires FirmRules(rules, mark) && Aligned(v, m, Replacements(rules), mark)
    ensures Free(v, rules) <==> Free(m, rules)
  {
    forall i | 0 <= i < |rules| ensures Occurs(rules[i].term, v) <==> Occurs(rules[i].term, m) {
      OccursInBoth(v, m, Replacements(rules), mark, rules[i].term);
    }
  }

  /** Brackets dropped after firm replacements bring a term back if and only if they do after mere cuts. */
  lemma DroppingIsExact(s: string, rules: seq<Rule>, mark: char)
    requires FirmRules(rules, mark)
    ensures Free(DropBrackets(Apply(s, rules)), rules) <==> Free(DropBrackets(Apply(s, Cutting(rules, mark))), rules)
  {
    var cutting := Cutting(rules, mark);
    ApplyAligned(s, rules, |rules|, mark);
    TakeAll(rules);
    TakeAll(cutting);
    DropAligned(Apply(s, rules), Apply(s, cutting), Replacements(rules), mark);
    FreeOfBoth(DropBrackets(Apply(s, rules)), DropBrackets(Apply(s, cutting)), rules, mark);
  }

  const MARK := '|'

  lemma FirmWhenClashing(rules: seq<Rule>, mark: char)
    requires forall i, j :: 0 <= i < |rules| && 0 <= j < |rules| ==> Clashes(rules[i].term, rules[j].replacement)
    requires forall i :: 0 <= i < |rules| ==> rules[i].replacement != "" && mark !in rules[i].term
    requires forall i :: 0 <= i < |rules| ==> '[' !in rules[i].replacement && ']' !in rules[i].replacement
    requires mark != '[' && mark != ']'
    ensures FirmRules(rules, mark)
  {
    forall rule | rule in rules ensures rule.term != "" {
      var i :| 0 <= i < |rules| && rules[i] == rule;
      assert Clashes(rules[i].term, rules[i].replacement);
    }
    forall r | r in Replacements(rules) ensures exists j :: 0 <= j < |rules| && rules[j].replacement == r {
      var rule :| rule in rules && rule.replacement == r;
    }
  }

  lemma RulesAreFirm()
    ensures FirmRules(RULES, MARK)
  {
    forall i, j | 0 <= i < |RULES| && 0 <= j < |RULES| ensures Clashes(RULES[i].term, RULES[j].replacement) {
      RulePairClashes(i, j);
    }
    forall i | 0 <= i < |RULES|
      ensures RULES[i].replacement != "" && MARK !in RULES[i].term
      ensures '[' !in RULES[i].replacement && ']' !in RULES[i].replacement
    {
      RuleText(i);
      RulePlain(i);
    }
    FirmWhenClashing(RULES, MARK);
  }

  lemma RuleText(i: nat)
    requires i < |RULES|
    ensures RULES[i].replacement != "" && MARK !in RULES[i].term
  {}

  lemma RulePlain(i: nat)
    requires i < |RULES|
    ensures '[' !in RULES[i].replacement && ']' !in RULES[i].replacement
  {}

  // ---- In terms of the text itself ----

  /** The term stands at this position, without brackets in it. */
  predicate At(s: string, t: string, k: nat) {
    k + |t| <= |s| && s[k..k + |t|] == t
  }

  /** The rule's term is spelled out from p to q, brackets aside. */
  predicate Spelled(s: string, rules: seq<Rule>, i: nat, p: nat, q: nat) {
    i < |rules| && p <= q <= |s| && DropBrackets(s[p..q]) == rules[i].term
  }

  /** No plain occurrence of a term takes a character from p to q. */
  ghost predicate Untouched(s: string, rules: seq<Rule>, p: nat, q: nat) {
    forall j, k :: 0 <= j < |rules| && 0 <= k && At(s, rules[j].term, k) ==> k + |rules[j].term| <= p || q <= k
  }

  /** Brackets split a term, and no plain occurrence takes part of it. */
  ghost predicate SplitTerm(s: string, rules: seq<Rule>) {
    exists i: nat, p: nat, q: nat :: Spelled(s, rules, i, p, q) && Untouched(s, rules, p, q)
  }

  /** No term holds a last character of a term before a first character of a term. */
  ghost predicate NoSeam(rules: seq<Rule>) {
    && (forall i :: 0 <= i < |rules| ==> rules[i].term != "" && '[' !in rules[i].term && ']' !in rules[i].term)
    && (forall i, j, k, e, f {:trigger rules[i].term, rules[j].term, rules[k].term[e], rules[k].term[f]} ::
          0 <= i < |rules| && 0 <= j < |rules| && 0 <= k < |rules| && 0 <= e < f < |rules[k].term| ==>
            !(rules[k].term[e] == Last(rules[i].term) && rules[k].term[f] == rules[j].term[0]))
  }

  function Last(t: string): char
    requires t != ""
  {
    t[|t| - 1]
  }

  function Blank(n: nat, mark: char): string {
    seq(n, i => mark)
  }

  /** The same terms, each blanked out character by character. */
  function Blanking(rules: seq<Rule>, mark: char): (r: seq<Rule>)
    ensures |r| == |rules|
    ensures (forall rule :: rule in rules ==> rule.term != "") ==> forall rule :: rule in r ==> rule.term != ""
  {
    seq(|rules|, i requires 0 <= i < |rules| => Rule(rules[i].term, Blank(|rules[i].term|, mark)))
  }

  /** `r` is `s` with marks where some occurrences of `u` were. */
  ghost predicate Blanked(s: string, r: string, u: string, mark: char) {
    |r| == |s| && forall k :: 0 <= k < |s| && r[k] != s[k] ==> InBlank(s, r, u, mark, k)
  }

  ghost predicate InBlank(s: string, r: string, u: string, mark: char, k: int) {
    exists c: nat :: c <= k < c + |u| && At(s, u, c) && At(r, Blank(|u|, mark), c)
  }

  lemma AtLater(x: string, s: string, t: string, c: nat)
    requires At(s, t, c)
    ensures At(x + s, t, |x| + c)
  {
    assert (x + s)[|x| + c..|x| + c + |t|] == s[c..c + |t|];
  }

  lemma BlankedLater(x: string, y: string, s: string, r: string, u: string, mark: char, k: nat)
    requires |x| == |y| && k < |s| && InBlank(s, r, u, mark, k)
    ensures InBlank(x + s, y + r, u, mark, |x| + k)
  {
    var c: nat :| c <= k < c + |u| && At(s, u, c) && At(r, Blank(|u|, mark), c);
    AtLater(x, s, u, c);
    AtLater(y, r, Blank(|u|, mark), c);
  }

  lemma {:induction false} ReplaceBlanks(s: string, u: string, mark: char)
    requires u != ""
    ensures Blanked(s, Replace(s, u, Blank(|u|, mark)), u, mark)
    decreases |s|
  {
    var blank := Blank(|u|, mark);
    var r := Replace(s, u, blank);
    if u <= s {
      var rest := s[|u|..];
      var after := Replace(rest, u, blank);
      ReplaceBlanks(rest, u, mark);
      assert s == u + rest && At(s, u, 0) && At(r, blank, 0);
      forall k | 0 <= k < |s| && r[k] != s[k] ensures InBlank(s, r, u, mark, k) {
        if k >= |u| { BlankedLater(u, blank, rest, after, u, mark, k - |u|); }
      }
    } else if s != "" {
      var after := Replace(s[1..], u, blank);
      ReplaceBlanks(s[1..], u, mark);
      assert s == [s[0]] + s[1..];
      forall k | 0 <= k < |s| && r[k] != s[k] ensures InBlank(s, r, u, mark, k) {
        BlankedLater([s[0]], [s[0]], s[1..], after, u, mark, k - 1);
      }
    }
  }

  lemma {:induction false} DropKeepsPlain(s: string, c: char)
    requires c != '[' && c != ']'
    ensures c in DropBrackets(s) <==> c in s
  {
    if s != "" { DropKeepsPlain(s[1..], c); }
  }

  lemma {:induction false} DropEnds(s: string)
    requires s != ""
    ensures s[0] != '[' && s[0] != ']' ==> DropBrackets(s) != "" && DropBrackets(s)[0] == s[0]
    ensures var c := s[|s| - 1]; c != '[' && c != ']' ==> DropBrackets(s) != "" && Last(DropBrackets(s)) == c
  {
    if |s| > 1 { DropEnds(s[1..]); }
  }

  /** An occurrence stays where no character of it is blanked. */
  lemma AtKept(s: string, r: string, t: string, k: nat)
    requires |s| == |r| && At(s, t, k) && forall m :: k <= m < k + |t| ==> r[m] == s[m]
    ensures At(r, t, k)
  {
    assert r[k..k + |t|] == s[k..k + |t|];
  }

  lemma AtHolds(s: string, t: string, k: nat, m: nat)
    requires At(s, t, k) && k <= m < k + |t|
    ensures s[m] == t[m - k]
  {
    assert s[k..k + |t|][m - k] == s[m];
  }

  /** The marks of a blanking are new where it changed the text. */
  lemma BlankAt(s: string, r: string, u: string, mark: char, k: nat)
    requires Blanked(s, r, u, mark) && k < |s|
    ensures r[k] != s[k] ==> r[k] == mark && InBlank(s, r, u, mark, k)
  {
    if r[k] != s[k] {
      var c: nat :| c <= k < c + |u| && At(s, u, c) && At(r, Blank(|u|, mark), c);
      AtHolds(r, Blank(|u|, mark), c, k);
    }
  }

  lemma Blanks(r: string, n: nat, mark: char, c: nat)
    requires At(r, Blank(n, mark), c)
    ensures forall m :: c <= m < c + n ==> r[m] == mark
  {
    forall m | c <= m < c + n ensures r[m] == mark { AtHolds(r, Blank(n, mark), c, m); }
  }

  lemma BlankApart(r: string, n: nat, mark: char, c: nat, p: nat, q: nat)
    requires At(r, Blank(n, mark), c) && q <= |r| && forall k :: p <= k < q ==> r[k] != mark
    ensures c + n <= p || q <= c || p >= q || n == 0
  {
    Blanks(r, n, mark, c);
    var x := if p < c then c else p;
    assert c <= x < c + n ==> r[x] == mark;
  }

  /** A split term survives the blanking of the plain occurrences, none of which touches it. */
  lemma SplitSurvives(s: string, r: string, rules: seq<Rule>, j: nat, mark: char)
    requires j < |rules| && Blanked(s, r, rules[j].term, mark) && SplitTerm(s, rules)
    requires forall i :: 0 <= i < |rules| ==> mark !in rules[i].term
    ensures SplitTerm(r, rules)
  {
    var i: nat, p: nat, q: nat :| Spelled(s, rules, i, p, q) && Untouched(s, rules, p, q);
    forall k | p <= k < q ensures r[k] == s[k] {
      BlankAt(s, r, rules[j].term, mark, k);
    }
    assert r[p..q] == s[p..q];
    forall v, k | 0 <= v < |rules| && 0 <= k && At(r, rules[v].term, k) ensures At(s, rules[v].term, k) {
      var t := rules[v].term;
      forall m | k <= m < k + |t| ensures s[m] == r[m] {
        BlankAt(s, r, rules[j].term, mark, m);
        AtHolds(r, t, k, m);
        assert r[m] in t;
      }
      AtKept(r, s, t, k);
    }
    assert Untouched(r, rules, p, q) && Spelled(r, rules, i, p, q);
  }

  /** A spelled term starts and ends where its first and last character are, unless a bracket stands there. */
  lemma SpelledEnds(s: string, rules: seq<Rule>, i: nat, p: nat, q: nat)
    requires NoSeam(rules) && Spelled(s, rules, i, p, q)
    ensures p < q
    ensures s[p] != '[' && s[p] != ']' ==> s[p] == rules[i].term[0]
    ensures s[q - 1] != '[' && s[q - 1] != ']' ==> s[q - 1] == Last(rules[i].term)
  {
    var x := s[p..q];
    assert x != "";
    DropEnds(x);
    assert x[0] == s[p] && x[|x| - 1] == s[q - 1];
  }

  /** Within a plain occurrence no last character of a term comes before a first one. */
  lemma NoSeamWithin(s: string, rules: seq<Rule>, v: nat, a: nat, e: nat, f: nat, i: nat, j: nat)
    requires NoSeam(rules) && v < |rules| && At(s, rules[v].term, a) && a <= e < f < a + |rules[v].term|
    requires i < |rules| && j < |rules|
    ensures !(s[e] == Last(rules[i].term) && s[f] == rules[j].term[0])
    ensures s[e] != '[' && s[e] != ']' && s[f] != '[' && s[f] != ']'
  {
    var w := rules[v].term;
    AtHolds(s, w, a, e);
    AtHolds(s, w, a, f);
    assert s[e] == w[e - a] && s[f] == w[f - a] && w[e - a] in w && w[f - a] in w;
  }

  /** A plain occurrence cannot run from a blanked one into a split term. */
  lemma NoBridge(s: string, rules: seq<Rule>, i: nat, p: nat, q: nat, j: nat, c: nat, v: nat, a: nat)
    requires NoSeam(rules) && Spelled(s, rules, i, p, q) && j < |rules| && v < |rules|
    requires At(s, rules[j].term, c) && At(s, rules[v].term, a)
    requires c + |rules[j].term| <= p || q <= c
    requires a < q && p < a + |rules[v].term|
    ensures a + |rules[v].term| <= c || c + |rules[j].term| <= a
  {
    var u := rules[j].term;
    SpelledEnds(s, rules, i, p, q);
    AtHolds(s, u, c, c);
    AtHolds(s, u, c, c + |u| - 1);
    if q <= c < a + |rules[v].term| {
      NoSeamWithin(s, rules, v, a, q - 1, c, i, j);
    } else if c + |u| <= p && a < c + |u| {
      NoSeamWithin(s, rules, v, a, c + |u| - 1, p, j, i);
    }
  }

  /** The blanking splits no term that was not split before. */
  lemma SplitWasThere(s: string, r: string, rules: seq<Rule>, j: nat, mark: char)
    requires NoSeam(rules) && j < |rules| && Blanked(s, r, rules[j].term, mark) && SplitTerm(r, rules)
    requires mark != '[' && mark != ']' && forall i :: 0 <= i < |rules| ==> mark !in rules[i].term
    ensures SplitTerm(s, rules)
  {
    var i: nat, p: nat, q: nat :| Spelled(r, rules, i, p, q) && Untouched(r, rules, p, q);
    DropKeepsPlain(r[p..q], mark);
    forall k | p <= k < q ensures r[k] != mark && r[k] == s[k] {
      assert r[p..q][k - p] == r[k] && r[k] in r[p..q];
      BlankAt(s, r, rules[j].term, mark, k);
    }
    assert r[p..q] == s[p..q];
    assert Spelled(s, rules, i, p, q);
    forall v, a | 0 <= v < |rules| && 0 <= a && At(s, rules[v].term, a)
      ensures a + |rules[v].term| <= p || q <= a
    {
      if a < q && p < a + |rules[v].term| { SplitNotTouched(s, r, rules, j, mark, i, p, q, v, a); }
    }
    assert Untouched(s, rules, p, q);
  }

  lemma SplitNotTouched(
      s: string, r: string, rules: seq<Rule>, j: nat, mark: char, i: nat, p: nat, q: nat, v: nat, a: nat)
    requires NoSeam(rules) && j < |rules| && v < |rules| && Blanked(s, r, rules[j].term, mark)
    requires Spelled(s, rules, i, p, q) && Untouched(r, rules, p, q)
    requires forall k :: p <= k < q ==> r[k] != mark
    requires At(s, rules[v].term, a)
    ensures a + |rules[v].term| <= p || q <= a
  {
    var w, u := rules[v].term, rules[j].term;
    if a < q && p < a + |w| {
      if forall m :: a <= m < a + |w| ==> r[m] == s[m] {
        AtKept(s, r, w, a);
      } else {
        var m :| a <= m < a + |w| && r[m] != s[m];
        assert InBlank(s, r, u, mark, m);
        var c: nat :| c <= m < c + |u| && At(s, u, c) && At(r, Blank(|u|, mark), c);
        BlankApart(r, |u|, mark, c, p, q);
        NoBridge(s, rules, i, p, q, j, c, v, a);
      }
    }
  }

  lemma {:induction false} BlankingKeepsSplit(s: string, rules: seq<Rule>, k: nat, mark: char)
    requires k <= |rules| && NoSeam(rules) && mark != '[' && mark != ']'
    requires (forall rule :: rule in rules ==> rule.term != "")
             && forall i :: 0 <= i < |rules| ==> mark !in rules[i].term
    ensures SplitTerm(Apply(s, Blanking(rules, mark)[..k]), rules) <==> SplitTerm(s, rules)
  {
    var blanking := Blanking(rules, mark);
    if k > 0 {
      BlankingKeepsSplit(s, rules, k - 1, mark);
      assert blanking[..k][..k - 1] == blanking[..k - 1];
      var before := Apply(s, blanking[..k - 1]);
      var after := Apply(s, blanking[..k]);
      var u := rules[k - 1].term;
      assert after == Replace(before, u, Blank(|u|, mark));
      ReplaceBlanks(before, u, mark);
      if SplitTerm(before, rules) { SplitSurvives(before, after, rules, k - 1, mark); }
      if SplitTerm(after, rules) { SplitWasThere(before, after, rules, k - 1, mark); }
    }
  }

  lemma {:induction false} DropAppends(x: string, y: string)
    ensures DropBrackets(x + y) == DropBrackets(x) + DropBrackets(y)
  {
    if x == "" {
      assert x + y == y;
    } else {
      assert (x + y)[0] == x[0] && (x + y)[1..] == x[1..] + y;
      DropAppends(x[1..], y);
    }
  }

  /** What starts the text without brackets is spelled out at its start. */
  lemma {:induction false} DropStarts(s: string, t: string) returns (q: nat)
    requires t <= DropBrackets(s)
    ensures q <= |s| && DropBrackets(s[..q]) == t
  {
    if t == "" {
      q := 0;
    } else if s[0] == '[' || s[0] == ']' {
      q := DropStarts(s[1..], t);
      q := q + 1;
      assert s[..q][1..] == s[1..][..q - 1];
    } else {
      assert DropBrackets(s)[1..] == DropBrackets(s[1..]) && t[1..] <= DropBrackets(s)[1..];
      q := DropStarts(s[1..], t[1..]);
      q := q + 1;
      assert s[..q][1..] == s[1..][..q - 1] && t == [t[0]] + t[1..];
    }
  }

  lemma {:induction false} DropOccurs(s: string, t: string) returns (p: nat, q: nat)
    requires Occurs(t, DropBrackets(s))
    ensures p <= q <= |s| && DropBrackets(s[p..q]) == t
  {
    if t <= DropBrackets(s) {
      p := 0;
      q := DropStarts(s, t);
      assert s[0..q] == s[..q];
    } else {
      assert s[0] != '[' && s[0] != ']' ==> DropBrackets(s)[1..] == DropBrackets(s[1..]);
      p, q := DropOccurs(s[1..], t);
      assert s[1..][p..q] == s[p + 1..q + 1];
      p, q := p + 1, q + 1;
    }
  }

  lemma OccursAtStart(t: string, z: string)
    ensures Occurs(t, t + z)
  {}

  lemma SpelledOccurs(s: string, t: string, p: nat, q: nat)
    requires p <= q <= |s| && DropBrackets(s[p..q]) == t
    ensures Occurs(t, DropBrackets(s))
  {
    var x, z := DropBrackets(s[..p]), DropBrackets(s[q..]);
    assert s == s[..p] + (s[p..q] + s[q..]);
    DropAppends(s[..p], s[p..q] + s[q..]);
    DropAppends(s[p..q], s[q..]);
    OccursAtStart(t, z);
    assert (x + (t + z))[|x|..] == t + z;
    OccursLater(t, x + (t + z), |x|);
  }

  lemma {:induction false} AtOccurs(s: string, t: string, k: nat)
    requires At(s, t, k)
    ensures Occurs(t, s)
  {
    assert t <= s[k..];
    OccursLater(t, s, k);
  }

  /** In a text without plain occurrences the split terms are the ones that dropping the brackets brings back. */
  lemma SplitOfFree(s: string, rules: seq<Rule>)
    requires Free(s, rules)
    ensures SplitTerm(s, rules) <==> !Free(DropBrackets(s), rules)
  {
    if SplitTerm(s, rules) {
      var i: nat, p: nat, q: nat :| Spelled(s, rules, i, p, q) && Untouched(s, rules, p, q);
      SpelledOccurs(s, rules[i].term, p, q);
    }
    if !Free(DropBrackets(s), rules) {
      var i :| 0 <= i < |rules| && Occurs(rules[i].term, DropBrackets(s));
      var p, q := DropOccurs(s, rules[i].term);
      forall j, k | 0 <= j < |rules| && 0 <= k && At(s, rules[j].term, k) ensures false {
        AtOccurs(s, rules[j].term, k);
      }
      assert Spelled(s, rules, i, p, q) && Untouched(s, rules, p, q);
    }
  }

  /** A mark that no term holds stops every term, and so do several. */
  lemma BlankClashes(t: string, n: nat, mark: char)
    requires t != "" && n > 0 && mark !in t
    ensures Clashes(t, Blank(n, mark))
  {
    var blank := Blank(n, mark);
    forall d | -|t| < d < n ensures ClashAt(t, blank, d) {
      var i := if d >= 0 then 0 else -d;
      assert t[i] in t && 0 <= d + i < |blank| && t[i] != blank[d + i];
    }
  }

  lemma BlankingIsFirm(rules: seq<Rule>, mark: char)
    requires FirmRules(rules, mark)
    ensures FirmRules(Blanking(rules, mark), mark) && Compatible(Blanking(rules, mark))
    ensures Cutting(Blanking(rules, mark), mark) == Cutting(rules, mark)
  {
    var blanking := Blanking(rules, mark);
    forall i | 0 <= i < |rules| ensures rules[i].term != "" && mark !in rules[i].term {
      assert Firm(rules[i].term, Replacements(rules), mark);
    }
    forall i, j | 0 <= i < |rules| && 0 <= j < |rules| ensures Clashes(blanking[i].term, blanking[j].replacement) {
      BlankClashes(rules[i].term, |rules[j].term|, mark);
    }
    FirmWhenClashing(blanking, mark);
  }

  lemma SameTermsFree(s: string, rules: seq<Rule>, mark: char)
    ensures Free(s, Blanking(rules, mark)) <==> Free(s, rules)
  {
    var blanking := Blanking(rules, mark);
    assert forall i :: 0 <= i < |rules| ==> blanking[i].term == rules[i].term;
  }

  /** Brackets dropped after firm replacements bring a term back if and only if the text splits one by brackets and no
      plain occurrence takes part of it. */
  lemma DroppingFindsSplits(s: string, rules: seq<Rule>, mark: char)
    requires FirmRules(rules, mark) && NoSeam(rules)
    ensures !Free(DropBrackets(Apply(s, rules)), rules) <==> SplitTerm(s, rules)
  {
    var blanking := Blanking(rules, mark);
    var blanked := Apply(s, blanking);
    forall i | 0 <= i < |rules| ensures mark !in rules[i].term {
      assert Firm(rules[i].term, Replacements(rules), mark);
    }
    BlankingIsFirm(rules, mark);
    DroppingIsExact(s, rules, mark);
    DroppingIsExact(s, blanking, mark);
    SameTermsFree(DropBrackets(blanked), rules, mark);
    SameTermsFree(DropBrackets(Apply(s, Cutting(rules, mark))), rules, mark);
    ApplyFrees(s, blanking);
    SameTermsFree(blanked, rules, mark);
    SplitOfFree(blanked, rules);
    BlankingKeepsSplit(s, rules, |rules|, mark);
    TakeAll(blanking);
  }

  const FIRST_CHARACTERS := "수목진손매"
  const LAST_CHARACTERS := "장가수도"

  lemma RuleEnds(i: nat)
    requires i < |RULES|
    ensures var t := RULES[i].term;
            && t != "" && t[0] in FIRST_CHARACTERS && Last(t) in LAST_CHARACTERS && '[' !in t && ']' !in t
            && forall e, f :: 0 <= e < f < |t| && t[e] in LAST_CHARACTERS ==> t[f] !in FIRST_CHARACTERS
  {}

  lemma RulesHaveNoSeam()
    ensures NoSeam(RULES)
  {
    forall i | 0 <= i < |RULES|
      ensures var t := RULES[i].term;
              && t != "" && t[0] in FIRST_CHARACTERS && Last(t) in LAST_CHARACTERS && '[' !in t && ']' !in t
              && forall e, f :: 0 <= e < f < |t| && t[e] in LAST_CHARACTERS ==> t[f] !in FIRST_CHARACTERS
    {
      RuleEnds(i);
    }
  }

  /** After the bracket removal the answer holds one of the six terms if and only if the text before the replacement
      does so split by brackets, and no plain occurrence of a term takes a character of it. */
  lemma BracketRemovalIsExact(s: string)
    ensures !Free(Replace(Replace(Neutralize(s), "[", ""), "]", ""), RULES) <==> SplitTerm(s, RULES)
  {
    RulesAreFirm();
    RulesHaveNoSeam();
    DropIsReplace(Neutralize(s));
    DroppingFindsSplits(s, RULES, MARK);
  }

  // ---- Policy ----

  const CERTAINTY_TERMS := ["수익 보장", "보장", "확실", "무조건", "guaranteed", "guarantee", "certain"]
  const TRADE_DECISION_TERMS := ["매수", "매도", "buy", "sell", "사도", "팔아", "거래 판단"]
  const TARGET_PRICE_TERMS := ["목표가", "target price", "가격 목표"]
  const ENTRY_STOP_TERMS := ["진입가", "손절가", "entry", "stop loss", "stop-loss"]

  datatype Policy = Refused | Redirected(category: string) | Allowed

  predicate ContainsAny(text: string, terms: seq<string>) {
    exists i :: 0 <= i < |terms| && Occurs(terms[i], text)
  }

  function Folded(text: string, fold: char -> string): string {
    if text == "" then "" else fold(text[0]) + Folded(text[1..], fold)
  }

  /** The policy for a case-folded message; the terms are their own case folding. */
  function PolicyFor(normalized: string): Policy {
    if ContainsAny(normalized, CERTAINTY_TERMS) then Refused
    else if ContainsAny(normalized, TRADE_DECISION_TERMS) then Redirected("trade_decision")
    else if ContainsAny(normalized, TARGET_PRICE_TERMS) then Redirected("target_price")
    else if ContainsAny(normalized, ENTRY_STOP_TERMS) then Redirected("entry_or_risk_price")
    else Allowed
  }

  function EvaluatePolicy(message: string, fold: char -> string): Policy {
    PolicyFor(Folded(message, fold))
  }

  lemma {:induction false} OccursAt(t: string, s: string)
    requires Occurs(t, s)
    ensures exists k: nat :: At(s, t, k)
  {
    if t <= s {
      assert At(s, t, 0);
    } else {
      OccursAt(t, s[1..]);
      var k: nat :| At(s[1..], t, k);
      assert s[1..][k..k + |t|] == s[k + 1..k + 1 + |t|];
      assert At(s, t, k + 1);
    }
  }

  /** Somewhere in the text stands one of the terms. */
  ghost predicate Holds(s: string, terms: seq<string>) {
    exists t, k: nat :: t in terms && At(s, t, k)
  }

  lemma ContainsAnyAt(s: string, terms: seq<string>)
    ensures ContainsAny(s, terms) <==> Holds(s, terms)
  {
    if ContainsAny(s, terms) {
      var i :| 0 <= i < |terms| && Occurs(terms[i], s);
      OccursAt(terms[i], s);
      var k: nat :| At(s, terms[i], k);
      assert terms[i] in terms && At(s, terms[i], k);
    }
    forall t, k: nat | t in terms && At(s, t, k) ensures ContainsAny(s, terms) {
      AtOccurs(s, t, k);
      var i :| 0 <= i < |terms| && terms[i] == t;
    }
  }

  /** The policy's terms cover the six that answers may not hold. */
  lemma AllowedIsFree(normalized: string)
    requires PolicyFor(normalized).Allowed?
    ensures Free(normalized, RULES)
  {
    assert RULES[0].term == CERTAINTY_TERMS[0] && RULES[1].term == TARGET_PRICE_TERMS[0];
    assert RULES[2].term == ENTRY_STOP_TERMS[0] && RULES[3].term == ENTRY_STOP_TERMS[1];
    assert RULES[4].term == TRADE_DECISION_TERMS[0] && RULES[5].term == TRADE_DECISION_TERMS[1];
  }

  // ---- Citations ----

  /** An evidence item; the details stand for its type, title, source and dates, which a citation copies. */
  datatype Item = Item(id: string, details: string)

  datatype Citation = Citation(evidenceId: string, details: string)

  function CitationOf(item: Item): Citation {
    Citation(item.id, item.details)
  }

  function Ids(items: seq<Item>): (r: seq<string>)
    ensures |r| == |items|
  {
    seq(|items|, i requires 0 <= i < |items| => items[i].id)
  }

  /** The dictionary by id: the last item with an id wins. */
  function ById(evidence: seq<Item>): map<string, Item> {
    if evidence == [] then map[]
    else
      var last := evidence[|evidence| - 1];
      ById(evidence[..|evidence| - 1])[last.id := last]
  }

  function Chosen(ids: seq<string>, byId: map<string, Item>): seq<Item> {
    if ids == [] then []
    else
      var before, last := Chosen(ids[..|ids| - 1], byId), ids[|ids| - 1];
      if last in byId then before + [byId[last]] else before
  }

  /** Appends each item whose id is not there yet; the ids appended on the way count. */
  function Extended(selected: seq<Item>, evidence: seq<Item>): seq<Item> {
    if evidence == [] then selected
    else
      var last := evidence[|evidence| - 1];
      var before := Extended(selected, evidence[..|evidence| - 1]);
      if last.id in Ids(before) then before else before + [last]
  }

  function Selection(reasonIds: seq<string>, evidence: seq<Item>): seq<Item> {
    var chosen := Chosen(Unique(reasonIds), ById(evidence));
    if |chosen| < 2 then Extended(chosen, evidence) else chosen
  }

  function FirstFour(items: seq<Item>): seq<Item> {
    if |items| <= 4 then items else items[..4]
  }

  /** The citations of a candidate whose reasons name these evidence ids. */
  function Citations(reasonIds: seq<string>, evidence: seq<Item>): seq<Citation> {
    Image(FirstFour(Selection(reasonIds, evidence)), CitationOf)
  }

  ghost function IdSet(evidence: seq<Item>): set<string> {
    set item | item in evidence :: item.id
  }

  /** The evidence ids that some reason names. */
  ghost function Named(reasonIds: seq<string>, evidence: seq<Item>): set<string> {
    set id | id in reasonIds && id in IdSet(evidence)
  }

  lemma {:induction false} ByIdExact(evidence: seq<Item>)
    ensures ById(evidence).Keys == IdSet(evidence)
    ensures forall id :: id in ById(evidence) ==> ById(evidence)[id] in evidence && ById(evidence)[id].id == id
  {
    if evidence != [] {
      var n := |evidence| - 1;
      ByIdExact(evidence[..n]);
      assert evidence == evidence[..n] + [evidence[n]];
      assert IdSet(evidence) == IdSet(evidence[..n]) + {evidence[n].id};
    }
  }

  /** A list of evidence items with distinct ids. */
  ghost predicate Proper(items: seq<Item>, evidence: seq<Item>) {
    (forall x :: x in items ==> x in evidence) && Distinct(Ids(items))
  }

  lemma IdsAppend(items: seq<Item>, item: Item)
    requires Distinct(Ids(items)) && item.id !in Ids(items)
    ensures Ids(items + [item]) == Ids(items) + [item.id] && Distinct(Ids(items + [item]))
  {}

  lemma {:induction false} ChosenProper(ids: seq<string>, evidence: seq<Item>)
    requires Distinct(ids)
    ensures Proper(Chosen(ids, ById(evidence)), evidence)
    ensures forall id :: id in Ids(Chosen(ids, ById(evidence))) <==> id in ids && id in IdSet(evidence)
  {
    ByIdExact(evidence);
    if ids != [] {
      var n := |ids| - 1;
      ChosenProper(ids[..n], evidence);
      assert ids == ids[..n] + [ids[n]];
      if ids[n] in ById(evidence) { IdsAppend(Chosen(ids[..n], ById(evidence)), ById(evidence)[ids[n]]); }
    }
  }

  lemma {:induction false} ExtendedProper(selected: seq<Item>, all: seq<Item>, evidence: seq<Item>)
    requires Proper(selected, all) && forall x :: x in evidence ==> x in all
    ensures Proper(Extended(selected, evidence), all)
    ensures selected <= Extended(selected, evidence)
    ensures forall id :: id in Ids(Extended(selected, evidence)) <==> id in Ids(selected) || id in IdSet(evidence)
  {
    if evidence != [] {
      var n := |evidence| - 1;
      ExtendedProper(selected, all, evidence[..n]);
      assert evidence == evidence[..n] + [evidence[n]];
      assert IdSet(evidence) == IdSet(evidence[..n]) + {evidence[n].id};
      var before := Extended(selected, evidence[..n]);
      if evidence[n].id !in Ids(before) { IdsAppend(before, evidence[n]); }
    }
  }

  lemma {:induction false} DistinctSize(list: seq<string>, s: set<string>)
    requires Distinct(list) && forall x :: x in list <==> x in s
    ensures |list| == |s|
  {
    if list == [] {
      assert s == {};
    } else {
      var n := |list| - 1;
      assert list == list[..n] + [list[n]];
      DistinctSize(list[..n], s - {list[n]});
    }
  }

  /** The citations are of evidence items with distinct ids, those the reasons name first. Their number is four at most;
      and if the reasons name fewer than two items, it is the number of different ids, capped at four. */
  lemma CitationsExact(reasonIds: seq<string>, evidence: seq<Item>)
    ensures var named, all := Named(reasonIds, evidence), Selection(reasonIds, evidence);
            && Proper(all, evidence)
            && Citations(reasonIds, evidence) == Image(FirstFour(all), CitationOf)
            && (forall i :: 0 <= i < |all| ==> (i < |named| <==> all[i].id in named))
            && |all| == if |named| >= 2 then |named| else |IdSet(evidence)|
  {
    var named := Named(reasonIds, evidence);
    var chosen := Chosen(Unique(reasonIds), ById(evidence));
    ChosenProper(Unique(reasonIds), evidence);
    DistinctSize(Ids(chosen), named);
    forall i | 0 <= i < |chosen| ensures chosen[i].id in named { assert Ids(chosen)[i] in Ids(chosen); }
    if |chosen| < 2 {
      ExtendedProper(chosen, evidence, evidence);
      var all := Extended(chosen, evidence);
      DistinctSize(Ids(all), IdSet(evidence));
      forall i | |chosen| <= i < |all| ensures all[i].id !in named {
        DistinctBeyond(Ids(all), |chosen|, i);
        assert Ids(all)[..|chosen|] == Ids(chosen);
      }
    }
  }

  lemma DistinctBeyond(list: seq<string>, k: nat, i: nat)
    requires Distinct(list) && k <= i < |list|
    ensures list[i] !in list[..k]
  {}

  /** What callers rely on: at most four citations, with distinct ids, all of the evidence. */
  lemma CitationsWithin(reasonIds: seq<string>, evidence: seq<Item>)
    ensures var citations := Citations(reasonIds, evidence);
            && |citations| <= 4
            && (forall c :: c in citations ==> exists item :: item in evidence && CitationOf(item) == c)
            && (forall i, j :: 0 <= i < j < |citations| ==> citations[i].evidenceId != citations[j].evidenceId)
            && (|IdSet(evidence)| >= 2 ==> |citations| >= 2)
            && (citations == [] <==> evidence == [])
  {
    CitationsExact(reasonIds, evidence);
    var all := Selection(reasonIds, evidence);
    var citations := Citations(reasonIds, evidence);
    forall i, j | 0 <= i < j < |citations| ensures citations[i].evidenceId != citations[j].evidenceId {
      assert Ids(all)[i] != Ids(all)[j];
      assert citations[i] == CitationOf(all[i]) && citations[j] == CitationOf(all[j]);
    }
    forall c | c in citations ensures exists item :: item in evidence && CitationOf(item) == c {
      var i :| 0 <= i < |citations| && citations[i] == c;
      assert all[i] in evidence;
    }
    if evidence != [] { assert evidence[0].id in IdSet(evidence); }
  }

  /** The citation loop, with the dictionaries and the growing list of the program. */
  method ComputeCitations(reasons: seq<seq<string>>, evidence: seq<Item>) returns (citations: seq<Citation>)
    ensures citations == Citations(Flatten(reasons), evidence)
  {
    var ids: seq<string> := [];
    for i := 0 to |reasons|
      invariant ids == Flatten(reasons[..i])
    {
      TakeOneMore(reasons, i);
      assert reasons[..i + 1][..i] == reasons[..i];
      ids := ids + reasons[i];
    }
    TakeAll(reasons);
    var byId: map<string, Item> := map[];
    for i := 0 to |evidence|
      invariant byId == ById(evidence[..i])
    {
      TakeOneMore(evidence, i);
      assert evidence[..i + 1][..i] == evidence[..i];
      byId := byId[evidence[i].id := evidence[i]];
    }
    TakeAll(evidence);
    var ordered := Unique(ids);
    var selected: seq<Item> := [];
    for i := 0 to |ordered|
      invariant selected == Chosen(ordered[..i], byId)
    {
      TakeOneMore(ordered, i);
      assert ordered[..i + 1][..i] == ordered[..i];
      if ordered[i] in byId { selected := selected + [byId[ordered[i]]]; }
    }
    TakeAll(ordered);
    if |selected| < 2 {
      var chosen := selected;
      for i := 0 to |evidence|
        invariant selected == Extended(chosen, evidence[..i])
      {
        TakeOneMore(evidence, i);
        assert evidence[..i + 1][..i] == evidence[..i];
        if evidence[i].id !in Ids(selected) { selected := selected + [evidence[i]]; }
      }
    }
    citations := Image(FirstFour(selected), CitationOf);
  }

  function Flatten(reasons: seq<seq<string>>): seq<string> {
    if reasons == [] then [] else Flatten(reasons[..|reasons| - 1]) + reasons[|reasons| - 1]
  }

  /** The ids that reasons name, reason by reason. */
  lemma {:induction false} FlattenExact(a: seq<seq<string>>, reason: seq<string>, b: seq<seq<string>>)
    ensures Flatten(a + [reason] + b) == Flatten(a) + reason + Flatten(b)
  {
    if b == [] {
      assert a + [reason] + b == a + [reason] && (a + [reason])[..|a|] == a;
    } else {
      FlattenExact(a, reason, b[..|b| - 1]);
      DropLastOfSum(a + [reason], b);
    }
  }

  // ---- The composed answer ----

  datatype Response = Response(answer: string, citations: seq<Citation>, policy: Policy, usedIds: seq<string>)

  function CitationIds(citations: seq<Citation>): seq<string> {
    Image(citations, (c: Citation) => c.evidenceId)
  }

  /** The three texts are given; which one answers is the policy's choice. */
  datatype Texts = Texts(blocked: string, redirected: string, summary: string)

  function Compose(
      message: string, fold: char -> string, reasonIds: seq<string>, evidence: seq<Item>, texts: Texts): Response
  {
    var policy, citations := EvaluatePolicy(message, fold), Citations(reasonIds, evidence);
    var answer :=
      if policy.Refused? then texts.blocked else if policy.Redirected? then texts.redirected else texts.summary;
    Response(answer, citations, policy, CitationIds(citations))
  }
}
