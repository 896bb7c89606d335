/**
  The host-name regular expression that check_domain compiles,

      ^(?=.{1,255}$)(?!-)[A-Za-z0-9\-]{1,63}(\.[A-Za-z0-9\-]{1,63})*\.?(?<!-)$

  applied with Python's `re.match` (no flags). `Matches` states the pattern piece by
  piece, with Python's meaning of each piece: `.` does not match a newline, and `$`
  without MULTILINE holds at the end of the input or just before a final newline.
  `MatchesIff` then characterises the accepted strings as plain grammar.
*/
module DomainPattern {

  import opened Optional

  const MaxNameLength := 255
  const MaxLabelLength := 63

  /** The character class [A-Za-z0-9\-]: ASCII letters, digits and the hyphen. */
  predicate IsLabelChar(c: char) {
    || ('A' <= c <= 'Z')
    || ('a' <= c <= 'z')
    || ('0' <= c <= '9')
    || c == '-'
  }

  /** One repetition of [A-Za-z0-9\-]{1,63}. */
  predicate IsLabel(l: string) {
    1 <= |l| <= MaxLabelLength && forall i | 0 <= i < |l| :: IsLabelChar(l[i])
  }

  predicate AllLabels(ls: seq<string>) {
    forall i | 0 <= i < |ls| :: IsLabel(ls[i])
  }

  /** The labels separated by single dots. */
  function Join(ls: seq<string>): string
    requires |ls| > 0
  {
    if |ls| == 1 then ls[0] else ls[0] + "." + Join(ls[1..])
  }

  /** What label(\.label)*\.? generates from a choice of labels and of the optional dot. */
  function Dotted(ls: seq<string>, trailingDot: bool): string
    requires |ls| > 0
  {
    Join(ls) + (if trailingDot then "." else "")
  }

  /** The number of leading characters of `w` that are in the label class. */
  function LabelRun(w: string): (n: nat)
    ensures n <= |w|
    ensures forall i | 0 <= i < n :: IsLabelChar(w[i])
    ensures n < |w| ==> !IsLabelChar(w[n])
  {
    if |w| > 0 && IsLabelChar(w[0]) then 1 + LabelRun(w[1..]) else 0
  }

  datatype Parsed = Parsed(labels: seq<string>, trailingDot: bool)

  /**
    Decides whether all of `w` is derived from [A-Za-z0-9\-]{1,63}(\.[A-Za-z0-9\-]{1,63})*\.?
    and, if so, returns the derivation. A label cannot hold a dot, so each label is the
    longest run of label characters at its position.
  */
  function ParseBody(w: string): (r: Option<Parsed>)
    ensures r.Some? ==> |r.value.labels| > 0 && AllLabels(r.value.labels)
    ensures r.Some? ==> Dotted(r.value.labels, r.value.trailingDot) == w
    ensures r.Some? ==> forall i | 0 <= i < |w| :: IsLabelChar(w[i]) || w[i] == '.'
    decreases |w|
  {
    var n := LabelRun(w);
    if n == 0 || n > MaxLabelLength then None
    else if n == |w| then Some(Parsed([w], false))
    else if w[n] != '.' then None
    else if n + 1 == |w| then Some(Parsed([w[..n]], true))
    else match ParseBody(w[n + 1..])
      case None => None
      case Some(p) =>
        ParseStep(w, n, w[n + 1..], p);
        Some(Parsed([w[..n]] + p.labels, p.trailingDot))
  }

  /** One label and a dot in front of an already recognised body. */
  lemma ParseStep(w: string, n: nat, rest: string, p: Parsed)
    requires 1 <= n <= MaxLabelLength && n + 1 < |w| && w[n] == '.' && rest == w[n + 1..]
    requires forall i | 0 <= i < n :: IsLabelChar(w[i])
    requires |p.labels| > 0 && AllLabels(p.labels)
    requires Dotted(p.labels, p.trailingDot) == rest
    requires forall i | 0 <= i < |rest| :: IsLabelChar(rest[i]) || rest[i] == '.'
    ensures var r := Parsed([w[..n]] + p.labels, p.trailingDot);
      && |r.labels| > 0 && AllLabels(r.labels)
      && Dotted(r.labels, r.trailingDot) == w
      && forall i | 0 <= i < |w| :: IsLabelChar(w[i]) || w[i] == '.'
  {
    var r := Parsed([w[..n]] + p.labels, p.trailingDot);
    assert r.labels[1..] == p.labels;
    DottedCons(r.labels, r.trailingDot);
    assert w == w[..n] + "." + w[n + 1..];
    forall i | 0 <= i < |w| ensures IsLabelChar(w[i]) || w[i] == '.' {
      if i > n {
        assert w[i] == rest[i - n - 1];
      }
    }
  }

  predicate NoNewline(t: string) {
    forall i | 0 <= i < |t| :: t[i] != '\n'
  }

  /** Python's `$` without MULTILINE: the end of the input, or just before a final newline. */
  predicate EndAnchor(s: string, p: nat) {
    p == |s| || (p + 1 == |s| && s[p] == '\n')
  }

  /** (?=.{1,255}$) at the start of the input. */
  predicate LengthLookahead(s: string) {
    exists k | 1 <= k <= MaxNameLength && k <= |s| :: NoNewline(s[..k]) && EndAnchor(s, k)
  }

  /** (?!-) at the start of the input. */
  predicate NoLeadingHyphen(s: string) {
    |s| == 0 || s[0] != '-'
  }

  /** (?<!-) at position p. */
  predicate NoHyphenBefore(s: string, p: nat)
    requires p <= |s|
  {
    p == 0 || s[p - 1] != '-'
  }

  /** The whole pattern, matched from the start of `s` as `re.match` does. */
  predicate Matches(s: string) {
    && LengthLookahead(s)
    && NoLeadingHyphen(s)
    && exists e | 0 <= e <= |s| ::
         ParseBody(s[..e]).Some? && NoHyphenBefore(s, e) && EndAnchor(s, e)
  }

  function DropFinalNewline(s: string): string {
    if |s| > 0 && s[|s| - 1] == '\n' then s[..|s| - 1] else s
  }

  /**
    The grammar the pattern enforces, stated on the name itself: 1 to 255 characters,
    dot-separated labels of 1 to 63 characters from [A-Za-z0-9-] with an optional
    trailing dot, no hyphen first and no hyphen last. A hyphen at the end of an interior
    label, or of a last label followed by the trailing dot, is allowed.
  */
  predicate WellFormedName(b: string) {
    && 1 <= |b| <= MaxNameLength
    && b[0] != '-'
    && b[|b| - 1] != '-'
    && ParseBody(b).Some?
  }

  lemma ParsedHasNoNewline(w: string)
    requires ParseBody(w).Some?
    ensures NoNewline(w)
  {
    forall i | 0 <= i < |w| ensures w[i] != '\n' {
      assert IsLabelChar(w[i]) || w[i] == '.';
    }
  }

  /** The pattern accepts `s` exactly when `s`, less one final newline, is well formed. */
  lemma MatchesIff(s: string)
    ensures Matches(s) <==> WellFormedName(DropFinalNewline(s))
  {
    if Matches(s) {
      MatchedIsWellFormed(s);
    }
    if WellFormedName(DropFinalNewline(s)) {
      WellFormedIsMatched(s);
    }
  }

  /** A position where a newline-free prefix meets `$` is the end of the name proper. */
  lemma AnchorAtNameEnd(s: string, p: nat)
    requires p <= |s| && NoNewline(s[..p]) && EndAnchor(s, p)
    ensures DropFinalNewline(s) == s[..p]
  {
    if p == |s| {
      assert s[..p] == s;
      if p > 0 {
        assert s[p - 1] == s[..p][p - 1];
      }
    }
  }

  lemma MatchedIsWellFormed(s: string)
    requires Matches(s)
    ensures WellFormedName(DropFinalNewline(s))
  {
    var e :| 0 <= e <= |s| && ParseBody(s[..e]).Some? && NoHyphenBefore(s, e) && EndAnchor(s, e);
    ParsedHasNoNewline(s[..e]);
    AnchorAtNameEnd(s, e);
    var k :| 1 <= k <= MaxNameLength && k <= |s| && NoNewline(s[..k]) && EndAnchor(s, k);
    AnchorAtNameEnd(s, k);
    assert e == k;
  }

  lemma WellFormedIsMatched(s: string)
    requires WellFormedName(DropFinalNewline(s))
    ensures Matches(s)
  {
    var b := DropFinalNewline(s);
    ParsedHasNoNewline(b);
    var n := |b|;
    assert s[..n] == b;
    assert EndAnchor(s, n);
    assert NoNewline(s[..n]) && EndAnchor(s, n);
    assert ParseBody(s[..n]).Some? && NoHyphenBefore(s, n) && EndAnchor(s, n);
  }

  lemma {:induction false} LabelRunOfLabel(l: string, rest: string)
    requires forall i | 0 <= i < |l| :: IsLabelChar(l[i])
    requires |rest| > 0 ==> !IsLabelChar(rest[0])
    ensures LabelRun(l + rest) == |l|
    decreases |l|
  {
    if |l| > 0 {
      assert (l + rest)[1..] == l[1..] + rest;
      LabelRunOfLabel(l[1..], rest);
    } else {
      assert l + rest == rest;
    }
  }

  lemma DottedCons(ls: seq<string>, trailingDot: bool)
    requires |ls| > 1
    ensures Dotted(ls, trailingDot) == ls[0] + "." + Dotted(ls[1..], trailingDot)
  {
  }

  /**
    Every string the body pattern generates is recognised, with the same derivation:
    parsing inverts `Dotted` on well-formed labels.
  */
  lemma {:induction false} ParseDotted(ls: seq<string>, trailingDot: bool)
    requires |ls| > 0 && AllLabels(ls)
    ensures ParseBody(Dotted(ls, trailingDot)) == Some(Parsed(ls, trailingDot))
    decreases |ls|
  {
    var w := Dotted(ls, trailingDot);
    var l := ls[0];
    if |ls| == 1 {
      if trailingDot {
        LabelRunOfLabel(l, ".");
        assert w[..|l|] == l;
      } else {
        LabelRunOfLabel(l, "");
        assert w == l + "";
      }
      assert ls == [l];
    } else {
      var rest := Dotted(ls[1..], trailingDot);
      DottedCons(ls, trailingDot);
      assert w == l + ("." + rest);
      LabelRunOfLabel(l, "." + rest);
      assert w[..|l|] == l;
      assert w[|l| + 1..] == rest;
      assert AllLabels(ls[1..]) by {
        forall i | 0 <= i < |ls[1..]| ensures IsLabel(ls[1..][i]) {
          assert ls[1..][i] == ls[i + 1];
        }
      }
      assert |rest| > 0 by {
        assert IsLabel(ls[1]);
        assert |Join(ls[1..])| >= |ls[1]|;
      }
      ParseDotted(ls[1..], trailingDot);
      assert [l] + ls[1..] == ls;
    }
  }

  lemma JoinStartsWithFirst(ls: seq<string>)
    requires |ls| > 0
    ensures |Join(ls)| >= |ls[0]| && Join(ls)[..|ls[0]|] == ls[0]
  {
  }

  /**
    Completeness of the pattern over generated names: labels of the right shape, joined
    by dots, with an optional trailing dot, are accepted when the whole name has 1 to 255
    characters and neither starts nor ends with a hyphen.
  */
  lemma DottedMatches(ls: seq<string>, trailingDot: bool)
    requires |ls| > 0 && AllLabels(ls)
    requires |Dotted(ls, trailingDot)| <= MaxNameLength
    requires ls[0][0] != '-'
    requires var w := Dotted(ls, trailingDot); w[|w| - 1] != '-'
    ensures Matches(Dotted(ls, trailingDot))
  {
    var w := Dotted(ls, trailingDot);
    ParseDotted(ls, trailingDot);
    ParsedHasNoNewline(w);
    JoinStartsWithFirst(ls);
    assert w[0] == Join(ls)[0] == ls[0][0];
    assert DropFinalNewline(w) == w;
    MatchesIff(w);
  }

  /** What an accepted input looks like, once one final newline is set aside. */
  lemma AcceptedShape(s: string)
    requires Matches(s)
    ensures var b := DropFinalNewline(s);
      && 1 <= |b| <= MaxNameLength
      && b[0] != '-'
      && b[|b| - 1] != '-'
      && NoNewline(b)
      && exists ls: seq<string>, trailingDot: bool {:trigger Dotted(ls, trailingDot)} ::
           |ls| > 0 && AllLabels(ls) && b == Dotted(ls, trailingDot)
  {
    var b := DropFinalNewline(s);
    MatchesIff(s);
    ParsedHasNoNewline(b);
    var p := ParseBody(b).value;
    assert b == Dotted(p.labels, p.trailingDot);
  }

  /**
    Python's `$` also matches before a final newline, so a name followed by one
    newline is accepted exactly when the name is (and the newline is kept).
  */
  lemma FinalNewlineAccepted(s: string)
    requires NoNewline(s)
    ensures Matches(s + "\n") <==> Matches(s)
  {
    assert DropFinalNewline(s + "\n") == s;
    assert DropFinalNewline(s) == s;
    MatchesIff(s + "\n");
    MatchesIff(s);
  }

  /**
    The hyphen rule is on the whole name, not on each label: interior labels and a last
    label before the trailing dot may end with a hyphen.
  */
  lemma InteriorHyphensAccepted()
    ensures Matches("a-.b")
    ensures Matches("a-.")
  {
    DottedMatches(["a-", "b"], false);
    assert Dotted(["a-", "b"], false) == "a-.b";
    DottedMatches(["a-"], true);
    assert Dotted(["a-"], true) == "a-.";
  }

  /** The first and the last character of the whole name may not be a hyphen. */
  lemma OuterHyphensRejected()
    ensures !Matches("a-")
    ensures !Matches("-a")
  {
    MatchesIff("a-");
    assert DropFinalNewline("a-") == "a-";
    MatchesIff("-a");
    assert DropFinalNewline("-a") == "-a";
  }

  /** An empty label is rejected, between dots or alone. */
  lemma EmptyLabelsRejected()
    ensures !Matches("a..b")
    ensures !Matches(".")
    ensures !Matches("")
  {
    MatchesIff("a..b");
    assert DropFinalNewline("a..b") == "a..b";
    var w := "a..b";
    assert LabelRun(w[1..]) == 0;
    assert LabelRun(w) == 1;
    assert ParseBody(w[2..]) == None;
    MatchesIff(".");
    assert DropFinalNewline(".") == ".";
    assert LabelRun(".") == 0;
    MatchesIff("");
  }
}
