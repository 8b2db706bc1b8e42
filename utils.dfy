/** The string helpers of src/lib/utils.ts: the file-name slug of a sector
    name and the quadrant colour and label tables with their lookups.

    Lower-casing is modelled over ASCII only: 'A'..'Z' map to 'a'..'z' and
    every other character is left as it is. */
module Utils {
  import opened Types

  // ---------------------------------------------------------------------
  // Characters
  // ---------------------------------------------------------------------

  /** A character the slug keeps as it is: the class [a-z0-9]. */
  predicate IsLowerAlnum(c: char)
  {
    ('a' <= c <= 'z') || ('0' <= c <= '9')
  }

  /** A character that may appear in a slug. */
  predicate IsSlugChar(c: char)
  {
    IsLowerAlnum(c) || c == '-'
  }

  function LowerChar(c: char): (r: char)
    ensures 'A' <= c <= 'Z' ==> 'a' <= r <= 'z'
    ensures !('A' <= c <= 'Z') ==> r == c
  {
    if 'A' <= c <= 'Z' then (c as int - 'A' as int + 'a' as int) as char else c
  }

  /** `String.prototype.toLowerCase`, restricted to ASCII. */
  function Lower(s: string): (r: string)
    ensures |r| == |s|
    ensures forall i :: 0 <= i < |s| ==> r[i] == LowerChar(s[i])
  {
    seq(|s|, i requires 0 <= i < |s| => LowerChar(s[i]))
  }

  /** The characters of `s` in [a-z0-9], in order. */
  function Alnums(s: string): string
  {
    if s == [] then []
    else (if IsLowerAlnum(s[0]) then [s[0]] else []) + Alnums(s[1..])
  }

  predicate AllSlugChars(s: string)
  {
    forall i :: 0 <= i < |s| ==> IsSlugChar(s[i])
  }

  predicate NoDoubleHyphen(s: string)
  {
    forall i :: 0 <= i < |s| - 1 ==> !(s[i] == '-' && s[i + 1] == '-')
  }

  /** The shape every slug has: only [a-z0-9-], no "--", and no hyphen at
      either end. */
  predicate IsSlug(s: string)
  {
    && AllSlugChars(s)
    && NoDoubleHyphen(s)
    && (|s| > 0 ==> s[0] != '-' && s[|s| - 1] != '-')
  }

  // ---------------------------------------------------------------------
  // slugify
  // ---------------------------------------------------------------------

  /** Drops the rest of a run of characters outside [a-z0-9]. */
  function SkipRun(s: string): (r: string)
    ensures |r| <= |s|
    ensures r == [] || IsLowerAlnum(r[0])
    decreases |s|
  {
    if s == [] || IsLowerAlnum(s[0]) then s else SkipRun(s[1..])
  }

  /** Skipping a separator run loses no alphanumeric. */
  lemma {:induction false} SkipRunAlnums(s: string)
    ensures Alnums(SkipRun(s)) == Alnums(s)
    decreases |s|
  {
    if s != [] && !IsLowerAlnum(s[0]) {
      SkipRunAlnums(s[1..]);
    }
  }

  /** `replace(/[^a-z0-9]+/g, "-")`: every maximal run of characters outside
      [a-z0-9] becomes a single hyphen. */
  function CollapseRuns(s: string): string
    decreases |s|
  {
    if s == [] then []
    else if IsLowerAlnum(s[0]) then [s[0]] + CollapseRuns(s[1..])
    else "-" + CollapseRuns(SkipRun(s[1..]))
  }

  /** The collapse holds only [a-z0-9-], never two hyphens in a row, is
      empty only for the empty string, and starts with a hyphen exactly
      when the input starts outside [a-z0-9]. */
  lemma {:induction false} CollapseRunsShape(s: string)
    ensures AllSlugChars(CollapseRuns(s))
    ensures NoDoubleHyphen(CollapseRuns(s))
    ensures |CollapseRuns(s)| == 0 <==> |s| == 0
    ensures |s| > 0 ==> (CollapseRuns(s)[0] == '-' <==> !IsLowerAlnum(s[0]))
    decreases |s|
  {
    if s != [] {
      var tail := if IsLowerAlnum(s[0]) then s[1..] else SkipRun(s[1..]);
      var c: char := if IsLowerAlnum(s[0]) then s[0] else '-';
      CollapseRunsShape(tail);
      var rest := CollapseRuns(tail);
      assert CollapseRuns(s) == [c] + rest;
      assert forall i :: 1 <= i < |rest| + 1 ==> ([c] + rest)[i] == rest[i - 1];
    }
  }

  /** The collapse keeps the alphanumerics, in order. */
  lemma {:induction false} CollapseRunsAlnums(s: string)
    ensures Alnums(CollapseRuns(s)) == Alnums(s)
    decreases |s|
  {
    if s != [] {
      if IsLowerAlnum(s[0]) {
        CollapseRunsAlnums(s[1..]);
        assert ([s[0]] + CollapseRuns(s[1..]))[1..] == CollapseRuns(s[1..]);
      } else {
        var u := SkipRun(s[1..]);
        CollapseRunsAlnums(u);
        SkipRunAlnums(s[1..]);
        assert ("-" + CollapseRuns(u))[1..] == CollapseRuns(u);
      }
    }
  }

  /** `replace(/(^-|-$)/g, "")`: drops one leading and one trailing hyphen. */
  function TrimHyphens(s: string): (r: string)
    ensures |r| <= |s|
  {
    var t := if |s| > 0 && s[0] == '-' then s[1..] else s;
    if |t| > 0 && t[|t| - 1] == '-' then t[..|t| - 1] else t
  }

  /** The trim takes off at most one character at each end, and only a
      hyphen: what remains is a contiguous part of the input, and an input
      with no hyphen at either end is left as it is. */
  lemma TrimHyphensSpec(s: string)
    ensures var r := TrimHyphens(s);
      && |r| <= |s| <= |r| + 2
      && (r == s[..|r|] || (|r| < |s| && s[0] == '-' && r == s[1..|r| + 1]))
      && (|s| > 0 && s[0] != '-' && s[|s| - 1] != '-' ==> r == s)
  {
  }

  /** `slugify(text)`: lower-case, collapse runs outside [a-z0-9] into one
      hyphen, trim a hyphen at either end. The result is a slug whose
      alphanumeric characters are exactly those of the lower-cased input. */
  function Slugify(text: string): (r: string)
    ensures IsSlug(r)
    ensures Alnums(r) == Alnums(Lower(text))
  {
    var collapsed := CollapseRuns(Lower(text));
    CollapseRunsShape(Lower(text));
    CollapseRunsAlnums(Lower(text));
    TrimmedIsSlug(collapsed);
    TrimHyphens(collapsed)
  }

  lemma {:induction false} AlnumsAppendHyphen(s: string)
    ensures Alnums(s + "-") == Alnums(s)
  {
    if s == [] {
      assert Alnums("-") == [] + Alnums([]);
    } else {
      assert (s + "-")[1..] == s[1..] + "-";
      AlnumsAppendHyphen(s[1..]);
    }
  }

  /** Trimming a collapsed string yields a slug with the same alphanumerics. */
  lemma TrimmedIsSlug(s: string)
    requires AllSlugChars(s) && NoDoubleHyphen(s)
    ensures IsSlug(TrimHyphens(s))
    ensures Alnums(TrimHyphens(s)) == Alnums(s)
  {
    var t := if |s| > 0 && s[0] == '-' then s[1..] else s;
    assert Alnums(t) == Alnums(s);
    assert |t| > 0 ==> t[0] != '-';
    if |t| > 0 && t[|t| - 1] == '-' {
      var u := t[..|t| - 1];
      assert t == u + "-";
      AlnumsAppendHyphen(u);
      assert |u| > 0 ==> u[|u| - 1] == t[|t| - 2];
    }
  }

  /** Lower-casing a lower-cased string changes nothing. */
  lemma LowerIdempotent(s: string)
    ensures Lower(Lower(s)) == Lower(s)
  {
  }

  /** `slugify` ignores case (over ASCII). */
  lemma SlugifyIgnoresCase(s: string)
    ensures Slugify(Lower(s)) == Slugify(s)
  {
    LowerIdempotent(s);
  }

  lemma {:induction false} CollapseRunsFixpoint(s: string)
    requires AllSlugChars(s) && NoDoubleHyphen(s)
    ensures CollapseRuns(s) == s
    decreases |s|
  {
    if s != [] {
      CollapseRunsFixpoint(s[1..]);
      if !IsLowerAlnum(s[0]) {
        assert s[0] == '-';
        assert SkipRun(s[1..]) == s[1..];
        assert s == "-" + s[1..];
      } else {
        assert s == [s[0]] + s[1..];
      }
    }
  }

  /** A slug is a fixed point of `slugify`. */
  lemma SlugIsFixpoint(s: string)
    requires IsSlug(s)
    ensures Slugify(s) == s
  {
    SlugSurvivesSteps(s);
  }

  lemma SlugSurvivesSteps(s: string)
    requires IsSlug(s)
    ensures TrimHyphens(CollapseRuns(Lower(s))) == s
  {
    LowerKeepsSlugChars(s);
    CollapseRunsFixpoint(s);
  }

  lemma LowerKeepsSlugChars(s: string)
    requires AllSlugChars(s)
    ensures Lower(s) == s
  {
  }

  /** `slugify(slugify(s)) == slugify(s)`. */
  lemma SlugifyIdempotent(s: string)
    ensures Slugify(Slugify(s)) == Slugify(s)
  {
    SlugIsFixpoint(Slugify(s));
  }

  /** A slug is empty exactly when it has no alphanumeric character; so
      `slugify` gives "" exactly when the input has no ASCII letter or digit. */
  lemma SlugifyEmptyIff(s: string)
    ensures Slugify(s) == [] <==> Alnums(Lower(s)) == []
  {
    var r := Slugify(s);
    if r != [] {
      assert IsLowerAlnum(r[0]);
      assert Alnums(r)[0] == r[0];
    }
  }

  // ---------------------------------------------------------------------
  // The slug as runs joined by hyphens
  // ---------------------------------------------------------------------

  /** A non-empty run of [a-z0-9] characters. */
  predicate IsWord(w: string)
  {
    |w| > 0 && forall i :: 0 <= i < |w| ==> IsLowerAlnum(w[i])
  }

  /** The length of the longest prefix of `s` in [a-z0-9]. */
  function RunLength(s: string): (n: nat)
    ensures n <= |s|
    ensures forall i :: 0 <= i < n ==> IsLowerAlnum(s[i])
    ensures n < |s| ==> !IsLowerAlnum(s[n])
    decreases |s|
  {
    if s == [] || !IsLowerAlnum(s[0]) then 0 else 1 + RunLength(s[1..])
  }

  /** The maximal runs of [a-z0-9] characters in `s`, in order. */
  function Runs(s: string): (ws: seq<string>)
    ensures AllWords(ws)
    decreases |s|
  {
    var t := SkipRun(s);
    if t == [] then []
    else
      var n := RunLength(t);
      assert IsWord(t[..n]);
      var rest := Runs(t[n..]);
      assert ([t[..n]] + rest)[1..] == rest;
      [t[..n]] + rest
  }

  /** Every element is a word. */
  predicate AllWords(ws: seq<string>)
  {
    ws == [] || (IsWord(ws[0]) && AllWords(ws[1..]))
  }

  /** The words joined by single hyphens. */
  function JoinHyphen(ws: seq<string>): string
  {
    if ws == [] then ""
    else if |ws| == 1 then ws[0]
    else ws[0] + "-" + JoinHyphen(ws[1..])
  }

  /** What `slugify` is meant to produce: the maximal [a-z0-9] runs of the
      lower-cased text, joined by single hyphens. */
  function SlugSpec(text: string): string
  {
    JoinHyphen(Runs(Lower(text)))
  }

  predicate EndsOutside(s: string)
  {
    |s| > 0 && !IsLowerAlnum(s[|s| - 1])
  }

  /** Joined non-empty alphanumeric words start and end with an
      alphanumeric, and are empty only when there are no words. */
  lemma {:induction false} JoinHyphenEnds(ws: seq<string>)
    requires AllWords(ws)
    ensures JoinHyphen(ws) == [] <==> ws == []
    ensures JoinHyphen(ws) != [] ==>
      IsLowerAlnum(JoinHyphen(ws)[0]) && IsLowerAlnum(JoinHyphen(ws)[|JoinHyphen(ws)| - 1])
  {
    if |ws| > 1 {
      JoinHyphenEnds(ws[1..]);
      var j := JoinHyphen(ws[1..]);
      assert JoinHyphen(ws) == ws[0] + "-" + j;
      assert IsLowerAlnum(ws[0][0]);
      assert JoinHyphen(ws)[0] == ws[0][0];
      assert JoinHyphen(ws)[|JoinHyphen(ws)| - 1] == j[|j| - 1];
    } else if |ws| == 1 {
      assert IsLowerAlnum(ws[0][0]) && IsLowerAlnum(ws[0][|ws[0]| - 1]);
    }
  }

  /** Skipping a run outside [a-z0-9] keeps the last character, or leaves
      nothing when the whole string was such a run. */
  lemma {:induction false} SkipRunEnds(s: string)
    ensures SkipRun(s) != [] ==> (EndsOutside(SkipRun(s)) <==> EndsOutside(s))
    ensures SkipRun(s) == [] && s != [] ==> EndsOutside(s)
    ensures SkipRun(SkipRun(s)) == SkipRun(s)
    decreases |s|
  {
    if s != [] && !IsLowerAlnum(s[0]) {
      SkipRunEnds(s[1..]);
      if |s| > 1 {
        assert s[1..][|s| - 2] == s[|s| - 1];
      }
    }
  }

  /** The collapse keeps the leading run and goes on after it. */
  lemma {:induction false} CollapseRunPrefix(s: string)
    ensures CollapseRuns(s) == s[..RunLength(s)] + CollapseRuns(s[RunLength(s)..])
    decreases |s|
  {
    if s == [] || !IsLowerAlnum(s[0]) {
      assert s[..0] == [] && s[0..] == s;
    } else {
      var t := s[1..];
      var m := RunLength(t);
      assert RunLength(s) == 1 + m;
      assert CollapseRuns(s) == [s[0]] + CollapseRuns(t);
      CollapseRunPrefix(t);
      var rest := CollapseRuns(t[m..]);
      assert CollapseRuns(t) == t[..m] + rest;
      SplitAfterHead(s, m);
      ConcatAssoc([s[0]], t[..m], rest);
    }
  }

  lemma SplitAfterHead(s: string, m: nat)
    requires 1 + m <= |s|
    ensures s[1..][m..] == s[1 + m..] && [s[0]] + s[1..][..m] == s[..1 + m]
  {
  }

  lemma ConcatAssoc(a: string, b: string, c: string)
    ensures a + (b + c) == (a + b) + c
  {
  }

  lemma ConcatRegroup(a: string, b: string, c: string, d: string)
    ensures a + (b + (c + d)) == (a + b + c) + d
  {
  }

  lemma RunsStep(s: string)
    requires s != [] && IsLowerAlnum(s[0])
    ensures Runs(s) == [s[..RunLength(s)]] + Runs(s[RunLength(s)..])
  {
  }

  lemma RunsSkip(s: string)
    ensures Runs(s) == Runs(SkipRun(s))
  {
    SkipRunEnds(s);
  }

  lemma JoinCons(w: string, ws: seq<string>)
    requires ws != []
    ensures JoinHyphen([w] + ws) == w + "-" + JoinHyphen(ws)
  {
    assert ([w] + ws)[1..] == ws;
  }

  /** The collapse of a string that starts inside a run (or is empty): the
      runs joined by hyphens, plus one hyphen for a trailing separator. */
  lemma {:induction false} CollapseFromRun(s: string)
    requires s == [] || IsLowerAlnum(s[0])
    ensures CollapseRuns(s) == JoinHyphen(Runs(s)) + (if Runs(s) != [] && EndsOutside(s) then "-" else "")
    decreases |s|
  {
    if s != [] {
      var w := s[..RunLength(s)];
      var rest := s[RunLength(s)..];
      WordStep(s);
      if rest == [] {
        assert JoinHyphen([w]) == w;
      } else {
        var u := SkipRun(rest);
        SeparatorStep(rest);
        if u != [] {
          CollapseFromRun(u);
          RunsStep(u);
          JoinCons(w, Runs(u));
          var t: string := if EndsOutside(s) then "-" else "";
          ConcatRegroup(w, "-", JoinHyphen(Runs(u)), t);
        } else {
          assert JoinHyphen([w]) == w;
        }
      }
    }
  }

  /** A string that starts inside a run: that run, then the rest. */
  lemma WordStep(s: string)
    requires s != [] && IsLowerAlnum(s[0])
    ensures var w := s[..RunLength(s)]; var rest := s[RunLength(s)..];
      && CollapseRuns(s) == w + CollapseRuns(rest)
      && Runs(s) == [w] + Runs(rest)
      && (rest == [] ==> !EndsOutside(s))
      && (rest != [] ==> !IsLowerAlnum(rest[0]) && (EndsOutside(rest) <==> EndsOutside(s)))
  {
    var w := s[..RunLength(s)];
    var rest := s[RunLength(s)..];
    assert s == w + rest;
    CollapseRunPrefix(s);
    RunsStep(s);
    if rest != [] {
      assert rest[0] == s[|w|];
      assert rest[|rest| - 1] == s[|s| - 1];
    }
  }

  /** A string that starts with a separator: one hyphen, then the rest
      after the separator run. */
  lemma SeparatorStep(s: string)
    requires s != [] && !IsLowerAlnum(s[0])
    ensures CollapseRuns(s) == "-" + CollapseRuns(SkipRun(s))
    ensures Runs(s) == Runs(SkipRun(s))
    ensures SkipRun(s) == [] ==> EndsOutside(s) && Runs(s) == [] && CollapseRuns(s) == "-"
    ensures SkipRun(s) != [] ==> (EndsOutside(SkipRun(s)) <==> EndsOutside(s))
  {
    RunsSkip(s);
    SkipRunEnds(s);
    if SkipRun(s) == [] {
      assert CollapseRuns(SkipRun(s)) == [];
    }
  }

  /** `replace(/[^a-z0-9]+/g, "-")` exactly: a hyphen for a leading
      separator, the runs joined by single hyphens, and a hyphen for a
      trailing separator. */
  lemma CollapseRunsSpec(s: string)
    ensures CollapseRuns(s)
      == (if s != [] && !IsLowerAlnum(s[0]) then "-" else "")
         + JoinHyphen(Runs(s))
         + (if Runs(s) != [] && EndsOutside(s) then "-" else "")
  {
    if s != [] && !IsLowerAlnum(s[0]) {
      CollapseFromSeparator(s);
    } else {
      CollapseFromRun(s);
      assert "" + JoinHyphen(Runs(s)) == JoinHyphen(Runs(s));
    }
  }

  /** The collapse of a string that starts with a separator: a hyphen, then
      as `CollapseFromRun`. */
  lemma CollapseFromSeparator(s: string)
    requires s != [] && !IsLowerAlnum(s[0])
    ensures CollapseRuns(s) == "-" + JoinHyphen(Runs(s)) + (if Runs(s) != [] && EndsOutside(s) then "-" else "")
  {
    var u := SkipRun(s);
    SeparatorStep(s);
    if u != [] {
      CollapseFromRun(u);
      ConcatAssoc("-", JoinHyphen(Runs(s)), if Runs(s) != [] && EndsOutside(s) then "-" else "");
    }
  }

  /** Trimming removes exactly the hyphens the collapse puts around the
      joined runs. */
  lemma TrimAround(lead: string, j: string, trail: string)
    requires lead == "" || lead == "-"
    requires trail == "" || trail == "-"
    requires j == [] ==> trail == ""
    requires j != [] ==> j[0] != '-' && j[|j| - 1] != '-'
    ensures TrimHyphens(lead + j + trail) == j
  {
    var s := lead + j + trail;
    var t := if |s| > 0 && s[0] == '-' then s[1..] else s;
    assert t == j + trail;
    if trail == "-" {
      assert t[..|t| - 1] == j;
    }
  }

  /** `slugify` returns exactly the maximal [a-z0-9] runs of the lower-cased
      text joined by single hyphens. */
  lemma SlugifyIsJoinedRuns(text: string)
    ensures Slugify(text) == SlugSpec(text)
  {
    TrimCollapseIsJoinedRuns(Lower(text));
  }

  lemma TrimCollapseIsJoinedRuns(s: string)
    ensures TrimHyphens(CollapseRuns(s)) == JoinHyphen(Runs(s))
  {
    CollapseRunsSpec(s);
    JoinedRunsEnds(s);
    TrimAround(if s != [] && !IsLowerAlnum(s[0]) then "-" else "",
               JoinHyphen(Runs(s)),
               if Runs(s) != [] && EndsOutside(s) then "-" else "");
  }

  lemma JoinedRunsEnds(s: string)
    ensures JoinHyphen(Runs(s)) == [] <==> Runs(s) == []
    ensures var j := JoinHyphen(Runs(s)); j != [] ==> j[0] != '-' && j[|j| - 1] != '-'
  {
    JoinHyphenEnds(Runs(s));
  }

  // ---------------------------------------------------------------------
  // Quadrant tables
  // ---------------------------------------------------------------------

  const DefaultColor: string := "#6B7280"

  /** `quadrantColors`. */
  function QuadrantColor(q: QuadrantCode): (r: string)
    ensures r != DefaultColor
  {
    match q
    case HH => "#DC2626"
    case HL => "#EA580C"
    case LH => "#9333EA"
    case LL => "#16A34A"
  }

  /** `quadrantLabels`. */
  function QuadrantLabel(q: QuadrantCode): string
  {
    match q
    case HH => "High Pathway Risk, High Network Constraint"
    case HL => "High Pathway Risk, Low Network Constraint"
    case LH => "Low Pathway Risk, High Network Constraint"
    case LL => "Low Pathway Risk, Low Network Constraint"
  }

  /** `quadrantDescriptions`. */
  function QuadrantDescription(q: QuadrantCode): string
  {
    match q
    case HH => "High direct AI exposure combined with constrained escape routes"
    case HL => "High AI exposure, but the career network provides viable alternatives"
    case LH => "Currently safe from direct AI impact, but surrounded by constrained positions"
    case LL => "Low AI exposure and high network flexibility"
  }

  /** No two quadrants share a colour. */
  lemma QuadrantColorsDistinct(p: QuadrantCode, q: QuadrantCode)
    requires p != q
    ensures QuadrantColor(p) != QuadrantColor(q)
  {
    assert QuadrantColor(p)[1] != QuadrantColor(q)[1];
  }

  /** The quadrant whose code is `code`, if any (an own-key lookup). */
  function ParseCode(code: string): (r: Option<QuadrantCode>)
    ensures forall q :: r == Some(q) <==> code == CodeName(q)
  {
    if code == "HH" then Some(HH)
    else if code == "HL" then Some(HL)
    else if code == "LH" then Some(LH)
    else if code == "LL" then Some(LL)
    else None
  }

  /** `getQuadrantColor`: the table colour for one of the four codes and
      the grey default for any other string. */
  function GetQuadrantColor(code: string): (r: string)
    ensures forall q :: code == CodeName(q) ==> r == QuadrantColor(q)
    ensures (forall q :: code != CodeName(q)) ==> r == DefaultColor
  {
    match ParseCode(code)
    case Some(q) => QuadrantColor(q)
    case None => DefaultColor
  }

  /** `getQuadrantLabel`: the table label for one of the four codes and the
      input itself for any other string. */
  function GetQuadrantLabel(code: string): (r: string)
    ensures forall q :: code == CodeName(q) ==> r == QuadrantLabel(q)
    ensures (forall q :: code != CodeName(q)) ==> r == code
  {
    match ParseCode(code)
    case Some(q) => QuadrantLabel(q)
    case None => code
  }

  // ---------------------------------------------------------------------
  // The lookups as written: property access on a plain JavaScript object
  // ---------------------------------------------------------------------

  /** The values a property read on the tables can produce. */
  datatype JsValue = JsString(s: string) | JsFunction(name: string) | JsObject | Undefined

  /** The members every object literal inherits from `Object.prototype`. */
  const InheritedMembers: set<string> := {
    "constructor", "hasOwnProperty", "isPrototypeOf", "propertyIsEnumerable",
    "toLocaleString", "toString", "valueOf", "__defineGetter__",
    "__defineSetter__", "__lookupGetter__", "__lookupSetter__", "__proto__"
  }

  predicate Truthy(v: JsValue)
  {
    match v
    case JsString(s) => s != ""
    case JsFunction(_) => true
    case JsObject => true
    case Undefined => false
  }

  /** `a || b`. */
  function JsOr(a: JsValue, b: JsValue): (r: JsValue)
    ensures Truthy(a) ==> r == a
    ensures !Truthy(a) ==> r == b
  {
    if Truthy(a) then a else b
  }

  /** `obj[key]` on an object literal whose own string properties are `own`:
      an own property first, then the inherited members (the `__proto__`
      accessor yields the prototype object, the others are functions). */
  function PropertyOf(own: map<string, string>, key: string): (r: JsValue)
    ensures key in own ==> r == JsString(own[key])
    ensures key !in own && key !in InheritedMembers ==> r == Undefined
    ensures key !in own && key in InheritedMembers ==> r != Undefined && !r.JsString?
  {
    if key in own then JsString(own[key])
    else if key == "__proto__" then JsObject
    else if key in InheritedMembers then JsFunction(key)
    else Undefined
  }

  function ColorTable(): map<string, string>
  {
    map[CodeName(HH) := QuadrantColor(HH), CodeName(HL) := QuadrantColor(HL),
        CodeName(LH) := QuadrantColor(LH), CodeName(LL) := QuadrantColor(LL)]
  }

  function LabelTable(): map<string, string>
  {
    map[CodeName(HH) := QuadrantLabel(HH), CodeName(HL) := QuadrantLabel(HL),
        CodeName(LH) := QuadrantLabel(LH), CodeName(LL) := QuadrantLabel(LL)]
  }

  /** No key of the two tables names an inherited member: the keys have two
      characters and the inherited names more. */
  lemma OwnKeyNotInherited(code: string)
    ensures code in ColorTable() || code in LabelTable() ==> code !in InheritedMembers
  {
    if code in ColorTable() || code in LabelTable() {
      assert |code| == 2;
    }
  }

  /** `quadrantColors[quadrant] || "#6B7280"`, as the source evaluates it. */
  function GetQuadrantColorAsWritten(code: string): (r: JsValue)
    ensures r.JsString? <==> code !in InheritedMembers
    ensures Truthy(r)
  {
    OwnKeyNotInherited(code);
    JsOr(PropertyOf(ColorTable(), code), JsString(DefaultColor))
  }

  /** `quadrantLabels[quadrant] || quadrant`, as the source evaluates it. */
  function GetQuadrantLabelAsWritten(code: string): (r: JsValue)
    ensures r.JsString? <==> code !in InheritedMembers
  {
    OwnKeyNotInherited(code);
    JsOr(PropertyOf(LabelTable(), code), JsString(code))
  }

  /** Off the inherited names, the source's colour lookup is the corrected one. */
  lemma ColorAsWrittenAgreesOffPrototype(code: string)
    requires code !in InheritedMembers
    ensures GetQuadrantColorAsWritten(code) == JsString(GetQuadrantColor(code))
  {
    assert ParseCode(code).Some? <==> code in ColorTable();
  }

  /** Off the inherited names, the source's label lookup is the corrected one. */
  lemma LabelAsWrittenAgreesOffPrototype(code: string)
    requires code !in InheritedMembers
    ensures GetQuadrantLabelAsWritten(code) == JsString(GetQuadrantLabel(code))
  {
    assert ParseCode(code).Some? <==> code in LabelTable();
  }

  /** For "toString" the source's colour lookup returns a function, not a
      colour string. */
  lemma ColorLookupLeaksPrototype()
    ensures GetQuadrantColorAsWritten("toString") == JsFunction("toString")
    ensures GetQuadrantColor("toString") == DefaultColor
  {
    assert "toString" !in ColorTable();
    assert "toString" in InheritedMembers;
  }

  /** For "constructor" the source's label lookup returns a function instead
      of echoing the input. */
  lemma LabelLookupLeaksPrototype()
    ensures GetQuadrantLabelAsWritten("constructor") == JsFunction("constructor")
    ensures GetQuadrantLabel("constructor") == "constructor"
  {
    assert "constructor" !in LabelTable();
    assert "constructor" in InheritedMembers;
  }
}
