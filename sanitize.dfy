/** The filename sanitizer `sanitizeFilename(name, maxLen = 200)`: two global
    regular-expression replacements, a trim and a slice, each a function here. */
module Sanitize {

  /** The default value of the `maxLen` parameter. */
  const DefaultMaxLen: int := 200

  /** The character class of the first replacement: `\ / : * ? " < > |`, LF, CR and TAB. */
  predicate IsReserved(c: char) {
    || c == '\\' || c == '/' || c == ':' || c == '*' || c == '?' || c == '"'
    || c == '<' || c == '>' || c == '|' || c == '\n' || c == '\r' || c == '\t'
  }

  /** JavaScript's `\s`, which is also the set of characters `trim` removes
      (the WhiteSpace and LineTerminator code points). */
  predicate IsSpace(c: char) {
    || '\t' <= c <= '\r' || c == ' ' || c == '\U{A0}' || c == '\U{1680}'
    || '\U{2000}' <= c <= '\U{200A}' || c == '\U{2028}' || c == '\U{2029}'
    || c == '\U{202F}' || c == '\U{205F}' || c == '\U{3000}' || c == '\U{FEFF}'
  }

  /** A character the sanitizer does not keep as it is: reserved or whitespace. */
  predicate IsSeparator(c: char) {
    IsReserved(c) || IsSpace(c)
  }

  /** The two character classes the sanitizer replaces runs of, and their union,
      whose runs the two replacements together turn into one space. */
  datatype Pattern = Reserved | Whitespace | Separator

  predicate Matches(p: Pattern, c: char) {
    match p
    case Reserved => IsReserved(c)
    case Whitespace => IsSpace(c)
    case Separator => IsSeparator(c)
  }

  /** `s.replace(/[class]+/g, ' ')`: every maximal run of characters matching `p`
      becomes a single space. `inRun` says that the character just before `s`
      belonged to a run that has already been replaced. */
  function ReplaceRuns(s: seq<char>, p: Pattern, inRun: bool): (r: seq<char>)
    ensures |r| <= |s|
    decreases |s|
  {
    if s == [] then []
    else if Matches(p, s[0]) then (if inRun then [] else [' ']) + ReplaceRuns(s[1..], p, true)
    else [s[0]] + ReplaceRuns(s[1..], p, false)
  }

  /** The global replacement of one pattern, starting outside any run. */
  function Replace(s: seq<char>, p: Pattern): (r: seq<char>)
    ensures |r| <= |s|
    ensures s == [] <==> r == []
  {
    ReplaceRuns(s, p, false)
  }

  /** Removes the leading whitespace. */
  function TrimStart(s: seq<char>): (r: seq<char>)
    ensures |r| <= |s|
  {
    if s != [] && IsSpace(s[0]) then TrimStart(s[1..]) else s
  }

  /** Removes the trailing whitespace. */
  function TrimEnd(s: seq<char>): (r: seq<char>)
    ensures |r| <= |s|
  {
    if s != [] && IsSpace(s[|s| - 1]) then TrimEnd(s[..|s| - 1]) else s
  }

  /** JavaScript's `trim`: neither end of the result is whitespace. */
  function Trim(s: seq<char>): (r: seq<char>)
    ensures |r| <= |s|
    ensures r == [] || (!IsSpace(r[0]) && !IsSpace(r[|r| - 1]))
  {
    TrimStartSpec(s);
    TrimEndSpec(TrimStart(s));
    TrimEnd(TrimStart(s))
  }

  /** JavaScript's `s.slice(0, end)` for an integral `end`: a negative end counts
      back from the end of `s`, an end past the length stops at the length. */
  function Slice(s: seq<char>, end: int): (r: seq<char>)
    ensures |r| <= |s| && r == s[..|r|]
    ensures 0 <= end ==> |r| == if end < |s| then end else |s|
    ensures end < 0 ==> |r| == if |s| + end < 0 then 0 else |s| + end
  {
    if end < 0 then s[..if |s| + end < 0 then 0 else |s| + end]
    else if end < |s| then s[..end]
    else s
  }

  /** The string before truncation: reserved runs and whitespace runs replaced, then trimmed. */
  function Cleaned(name: seq<char>): (r: seq<char>)
    ensures |r| <= |name|
  {
    Trim(Replace(Replace(name, Reserved), Whitespace))
  }

  // ---------------------------------------------------------------------------
  // Shape of a sanitized name

  predicate NoReserved(s: seq<char>) {
    forall i :: 0 <= i < |s| ==> !IsReserved(s[i])
  }

  /** Every whitespace character is a plain space. */
  predicate PlainSpaces(s: seq<char>) {
    forall i :: 0 <= i < |s| ==> IsSpace(s[i]) ==> s[i] == ' '
  }

  predicate NoDoubleSpace(s: seq<char>) {
    forall i :: 0 <= i < |s| - 1 ==> !(IsSpace(s[i]) && IsSpace(s[i + 1]))
  }

  predicate NoLeadingSpace(s: seq<char>) {
    s == [] || !IsSpace(s[0])
  }

  predicate EndsInSpace(s: seq<char>) {
    s != [] && IsSpace(s[|s| - 1])
  }

  /** What the three cleaning passes guarantee. */
  predicate IsClean(s: seq<char>) {
    && NoReserved(s) && PlainSpaces(s) && NoDoubleSpace(s) && NoLeadingSpace(s)
    && !EndsInSpace(s)
  }

  /** `sanitizeFilename(name, maxLen)`: the cleaned name cut at `maxLen`. */
  function SanitizeFilename(name: seq<char>, maxLen: int): (r: seq<char>)
    ensures 0 <= maxLen ==> |r| <= maxLen
    ensures r <= Cleaned(name)
    ensures 0 <= maxLen && |Cleaned(name)| <= maxLen ==> r == Cleaned(name)
    ensures 0 <= maxLen < |Cleaned(name)| ==> r == Cleaned(name)[..maxLen]
  {
    Slice(Cleaned(name), maxLen)
  }

  /** `sanitizeFilename(name)` with the default length. */
  function SanitizeDefault(name: seq<char>): (r: seq<char>)
    ensures |r| <= 200
  {
    SanitizeFilename(name, DefaultMaxLen)
  }

  // ---------------------------------------------------------------------------
  // Proofs of the shape

  /** What a replacement emits: a single space for a run, or a character outside the class. */
  lemma {:induction false} ReplaceRunsChars(s: seq<char>, p: Pattern, inRun: bool)
    ensures forall i :: 0 <= i < |ReplaceRuns(s, p, inRun)| ==>
              ReplaceRuns(s, p, inRun)[i] == ' ' || !Matches(p, ReplaceRuns(s, p, inRun)[i])
    decreases |s|
  {
    if s != [] {
      ReplaceRunsChars(s[1..], p, Matches(p, s[0]));
      var t := ReplaceRuns(s[1..], p, Matches(p, s[0]));
      var head := if Matches(p, s[0]) then (if inRun then [] else [' ']) else [s[0]];
      assert ReplaceRuns(s, p, inRun) == head + t;
    }
  }

  /** Trimming the start drops a whitespace prefix and leaves no leading whitespace. */
  lemma {:induction false} TrimStartSpec(s: seq<char>)
    ensures var r := TrimStart(s);
      && r == s[|s| - |r|..]
      && (forall i :: 0 <= i < |s| - |r| ==> IsSpace(s[i]))
      && NoLeadingSpace(r)
    decreases |s|
  {
    if s != [] && IsSpace(s[0]) {
      TrimStartSpec(s[1..]);
    }
  }

  /** Trimming the end drops a whitespace suffix and leaves no trailing whitespace. */
  lemma {:induction false} TrimEndSpec(s: seq<char>)
    ensures var r := TrimEnd(s);
      && r == s[..|r|]
      && (forall i :: |r| <= i < |s| ==> IsSpace(s[i]))
      && !EndsInSpace(r)
    decreases |s|
  {
    if s != [] && IsSpace(s[|s| - 1]) {
      TrimEndSpec(s[..|s| - 1]);
    }
  }

  /** The sanitized name holds no reserved character, its whitespace is isolated
      plain spaces, it does not start with whitespace, and it ends with a space
      only when the cut at `maxLen` removed something. */
  lemma SanitizeShape(name: seq<char>, maxLen: int)
    ensures var r := SanitizeFilename(name, maxLen);
      && NoReserved(r) && PlainSpaces(r) && NoDoubleSpace(r) && NoLeadingSpace(r)
      && (EndsInSpace(r) ==> |r| < |Cleaned(name)|)
  {
    CleanedIsClean(name);
    var c := Cleaned(name);
    var r := SanitizeFilename(name, maxLen);
    InfixKeepsShape(c, 0, |r|);
    assert c[0..|r|] == r;
  }

  /** A replacement of a class that holds all whitespace (the whitespace pass, or
      both passes in one) leaves no two whitespace characters side by side, and
      emits no leading whitespace when it starts inside a run. */
  lemma {:induction false} ReplaceSeparatesSpaces(s: seq<char>, p: Pattern, inRun: bool)
    requires p != Reserved
    ensures NoDoubleSpace(ReplaceRuns(s, p, inRun))
    ensures inRun ==> NoLeadingSpace(ReplaceRuns(s, p, inRun))
    decreases |s|
  {
    if s != [] {
      var t := ReplaceRuns(s[1..], p, Matches(p, s[0]));
      ReplaceSeparatesSpaces(s[1..], p, Matches(p, s[0]));
      var r := ReplaceRuns(s, p, inRun);
      if Matches(p, s[0]) {
        assert r == (if inRun then [] else [' ']) + t;
      } else {
        assert r == [s[0]] + t;
      }
    }
  }

  /** A replacement introduces no reserved character. */
  lemma {:induction false} ReplaceKeepsNoReserved(s: seq<char>, p: Pattern, inRun: bool)
    requires NoReserved(s)
    ensures NoReserved(ReplaceRuns(s, p, inRun))
    decreases |s|
  {
    if s != [] {
      assert NoReserved(s[1..]) by {
        forall i | 0 <= i < |s| - 1 ensures s[1..][i] == s[i + 1] { }
      }
      ReplaceKeepsNoReserved(s[1..], p, Matches(p, s[0]));
      var t := ReplaceRuns(s[1..], p, Matches(p, s[0]));
      var head := if Matches(p, s[0]) then (if inRun then [] else [' ']) else [s[0]];
      assert ReplaceRuns(s, p, inRun) == head + t;
    }
  }

  /** A contiguous piece of a string keeps the character-wise parts of the shape. */
  lemma InfixKeepsShape(s: seq<char>, i: nat, j: nat)
    requires i <= j <= |s|
    requires NoReserved(s) && PlainSpaces(s) && NoDoubleSpace(s)
    ensures NoReserved(s[i..j]) && PlainSpaces(s[i..j]) && NoDoubleSpace(s[i..j])
  {
    var t := s[i..j];
    forall k | 0 <= k < |t| - 1 ensures !(IsSpace(t[k]) && IsSpace(t[k + 1])) {
      assert t[k] == s[i + k] && t[k + 1] == s[i + k + 1];
    }
  }

  /** The cleaned name has the whole shape. */
  lemma CleanedIsClean(name: seq<char>)
    ensures IsClean(Cleaned(name))
  {
    var a := Replace(name, Reserved);
    var b := Replace(a, Whitespace);
    ReplaceRunsChars(name, Reserved, false);
    assert NoReserved(a);
    ReplaceKeepsNoReserved(a, Whitespace, false);
    ReplaceRunsChars(a, Whitespace, false);
    assert PlainSpaces(b);
    ReplaceSeparatesSpaces(a, Whitespace, false);
    var t := TrimStart(b);
    TrimStartSpec(b);
    InfixKeepsShape(b, |b| - |t|, |b|);
    var c := TrimEnd(t);
    TrimEndSpec(t);
    InfixKeepsShape(t, 0, |c|);
    assert c == t[0..|c|];
  }

  // ---------------------------------------------------------------------------
  // No character other than reserved ones and whitespace is altered or reordered

  /** The characters that survive sanitizing: everything but reserved and whitespace. */
  function Strip(s: seq<char>): (r: seq<char>)
    ensures |r| <= |s|
  {
    if s == [] then []
    else (if IsSeparator(s[0]) then [] else [s[0]]) + Strip(s[1..])
  }

  /** Deletes the plain spaces. */
  function DeleteSpaces(s: seq<char>): (r: seq<char>)
    ensures |r| <= |s|
  {
    if s == [] then [] else (if s[0] == ' ' then [] else [s[0]]) + DeleteSpaces(s[1..])
  }

  lemma {:induction false} StripAppend(a: seq<char>, b: seq<char>)
    ensures Strip(a + b) == Strip(a) + Strip(b)
    decreases |a|
  {
    if a != [] {
      var head := if IsSeparator(a[0]) then [] else [a[0]];
      assert (a + b)[0] == a[0] && (a + b)[1..] == a[1..] + b;
      StripAppend(a[1..], b);
      calc {
        Strip(a + b);
        head + Strip(a[1..] + b);
        head + (Strip(a[1..]) + Strip(b));
        (head + Strip(a[1..])) + Strip(b);
      }
    } else {
      assert a + b == b;
    }
  }

  /** Replacing runs of reserved or whitespace characters by spaces keeps the surviving characters. */
  lemma {:induction false} StripReplace(s: seq<char>, p: Pattern, inRun: bool)
    ensures Strip(ReplaceRuns(s, p, inRun)) == Strip(s)
    decreases |s|
  {
    if s != [] {
      StripReplace(s[1..], p, Matches(p, s[0]));
      var head := if Matches(p, s[0]) then (if inRun then [] else [' ']) else [s[0]];
      StripAppend(head, ReplaceRuns(s[1..], p, Matches(p, s[0])));
    }
  }

  lemma {:induction false} StripTrimStart(s: seq<char>)
    ensures Strip(TrimStart(s)) == Strip(s)
    decreases |s|
  {
    if s != [] && IsSpace(s[0]) {
      StripTrimStart(s[1..]);
    }
  }

  lemma {:induction false} StripTrimEnd(s: seq<char>)
    ensures Strip(TrimEnd(s)) == Strip(s)
    decreases |s|
  {
    if s != [] && IsSpace(s[|s| - 1]) {
      var n := |s| - 1;
      StripTrimEnd(s[..n]);
      assert s == s[..n] + [s[n]];
      StripAppend(s[..n], [s[n]]);
    }
  }

  /** Cleaning deletes only reserved and whitespace characters and keeps the rest in order. */
  lemma StripCleaned(name: seq<char>)
    ensures Strip(Cleaned(name)) == Strip(name)
  {
    var a := Replace(name, Reserved);
    var b := Replace(a, Whitespace);
    StripReplace(name, Reserved, false);
    StripReplace(a, Whitespace, false);
    StripTrimStart(b);
    StripTrimEnd(TrimStart(b));
  }

  /** On a string without reserved characters whose whitespace is plain spaces,
      deleting the spaces is the same as stripping. */
  lemma {:induction false} DeleteSpacesIsStrip(s: seq<char>)
    requires NoReserved(s) && PlainSpaces(s)
    ensures DeleteSpaces(s) == Strip(s)
    decreases |s|
  {
    if s != [] {
      assert NoReserved(s[1..]) && PlainSpaces(s[1..]) by {
        forall i | 0 <= i < |s| - 1 ensures s[1..][i] == s[i + 1] { }
      }
      DeleteSpacesIsStrip(s[1..]);
    }
  }

  /** Deleting the spaces from the sanitized name gives a prefix of the input with
      every reserved and whitespace character deleted: no other character is
      altered, dropped from the middle or reordered. Without a cut it is all of it. */
  lemma SanitizeKeepsOrder(name: seq<char>, maxLen: int)
    ensures DeleteSpaces(SanitizeFilename(name, maxLen)) <= Strip(name)
    ensures 0 <= maxLen && |Cleaned(name)| <= maxLen ==>
              DeleteSpaces(SanitizeFilename(name, maxLen)) == Strip(name)
  {
    var c := Cleaned(name);
    var r := SanitizeFilename(name, maxLen);
    SanitizeShape(name, maxLen);
    DeleteSpacesIsStrip(r);
    StripCleaned(name);
    var rest := c[|r|..];
    assert c == r + rest;
    StripAppend(r, rest);
    assert 0 <= maxLen && |c| <= maxLen ==> rest == [];
  }

  /** For a positive `maxLen` the result is empty exactly when the input consists
      of reserved and whitespace characters only. */
  lemma SanitizeEmptyIff(name: seq<char>, maxLen: int)
    requires 0 < maxLen
    ensures SanitizeFilename(name, maxLen) == [] <==> Strip(name) == []
  {
    var c := Cleaned(name);
    CleanedIsClean(name);
    StripCleaned(name);
    if c != [] {
      assert SanitizeFilename(name, maxLen)[0] == c[0];
      assert Strip(c) == [c[0]] + Strip(c[1..]);
    }
  }

  // ---------------------------------------------------------------------------
  // Sanitizing a sanitized name

  /** The reserved pass changes nothing on a string without reserved characters. */
  lemma {:induction false} ReplaceReservedIdentity(s: seq<char>, inRun: bool)
    requires NoReserved(s)
    ensures ReplaceRuns(s, Reserved, inRun) == s
    decreases |s|
  {
    if s != [] {
      assert NoReserved(s[1..]) by {
        forall i | 0 <= i < |s| - 1 ensures s[1..][i] == s[i + 1] { }
      }
      ReplaceReservedIdentity(s[1..], false);
      assert s == [s[0]] + s[1..];
    }
  }

  /** The whitespace pass changes nothing on isolated plain spaces (that do not
      continue a run already replaced). */
  lemma {:induction false} ReplaceSpacesIdentity(s: seq<char>, inRun: bool)
    requires PlainSpaces(s) && NoDoubleSpace(s)
    requires inRun ==> NoLeadingSpace(s)
    ensures ReplaceRuns(s, Whitespace, inRun) == s
    decreases |s|
  {
    if s != [] {
      var t := s[1..];
      assert PlainSpaces(t) && NoDoubleSpace(t) by {
        forall i | 0 <= i < |t| ensures t[i] == s[i + 1] { }
      }
      assert IsSpace(s[0]) ==> NoLeadingSpace(t);
      ReplaceSpacesIdentity(t, IsSpace(s[0]));
      assert s == [s[0]] + t;
    }
  }

  /** Sanitizing again only drops the trailing space a cut may have left, so a
      sanitized name is a fixed point exactly when it does not end in a space. */
  lemma SanitizeTwice(name: seq<char>, maxLen: int)
    requires 0 <= maxLen
    ensures SanitizeFilename(SanitizeFilename(name, maxLen), maxLen) == TrimEnd(SanitizeFilename(name, maxLen))
    ensures (SanitizeFilename(SanitizeFilename(name, maxLen), maxLen) == SanitizeFilename(name, maxLen))
              == !EndsInSpace(SanitizeFilename(name, maxLen))
  {
    var p := SanitizeFilename(name, maxLen);
    SanitizeShape(name, maxLen);
    TrimEndSpec(p);
    ReplaceReservedIdentity(p, false);
    ReplaceSpacesIdentity(p, false);
    assert Cleaned(p) == TrimEnd(p);
  }

  /** Without truncation, sanitizing is idempotent. */
  lemma SanitizeIdempotent(name: seq<char>, maxLen: int)
    requires 0 <= maxLen && |Cleaned(name)| <= maxLen
    ensures SanitizeFilename(SanitizeFilename(name, maxLen), maxLen) == SanitizeFilename(name, maxLen)
  {
    CleanedIsClean(name);
    SanitizeTwice(name, maxLen);
  }

  // ---------------------------------------------------------------------------
  // Each run of separators becomes exactly one space

  /** The separator replacement, which the two passes amount to. */
  function Collapse(s: seq<char>, inRun: bool): (r: seq<char>)
    ensures |r| <= |s|
  {
    ReplaceRuns(s, Separator, inRun)
  }

  /** Whether a replacement is inside a run after reading `s`. */
  function RunState(s: seq<char>, p: Pattern, inRun: bool): (after: bool)
    ensures s != [] ==> after == Matches(p, s[|s| - 1])
    ensures s == [] ==> after == inRun
  {
    if s == [] then inRun else Matches(p, s[|s| - 1])
  }

  /** The reserved pass followed by the whitespace pass is the separator
      replacement, provided the whitespace pass is in a run whenever the reserved
      pass is (a reserved run has just become a space). */
  lemma {:induction false} TwoPassesAreOne(s: seq<char>, inReserved: bool, inSpace: bool)
    requires inReserved ==> inSpace
    ensures ReplaceRuns(ReplaceRuns(s, Reserved, inReserved), Whitespace, inSpace) == Collapse(s, inSpace)
    decreases |s|
  {
    if s != [] {
      var t := s[1..];
      if IsReserved(s[0]) {
        TwoPassesAreOne(t, true, true);
        if !inReserved {
          var a := [' '] + ReplaceRuns(t, Reserved, true);
          assert ReplaceRuns(s, Reserved, inReserved) == a;
          assert a[0] == ' ' && a[1..] == ReplaceRuns(t, Reserved, true);
          assert ReplaceRuns(a, Whitespace, inSpace) ==
                 (if inSpace then [] else [' ']) + ReplaceRuns(a[1..], Whitespace, true);
          assert Collapse(s, inSpace) == (if inSpace then [] else [' ']) + Collapse(t, true);
        } else {
          assert ReplaceRuns(s, Reserved, inReserved) == ReplaceRuns(t, Reserved, true);
          assert Collapse(s, inSpace) == Collapse(t, true);
        }
      } else {
        TwoPassesAreOne(t, false, IsSpace(s[0]));
        var a := [s[0]] + ReplaceRuns(t, Reserved, false);
        assert a[0] == s[0] && a[1..] == ReplaceRuns(t, Reserved, false);
      }
    }
  }

  lemma ConcatAssoc(x: seq<char>, y: seq<char>, z: seq<char>)
    ensures x + (y + z) == (x + y) + z
  {
  }

  /** One step of a replacement on a string given as its first character and the rest. */
  lemma ReplaceRunsCons(c: char, s: seq<char>, p: Pattern, inRun: bool)
    ensures ReplaceRuns([c] + s, p, inRun) ==
              (if Matches(p, c) then (if inRun then [] else [' ']) else [c]) + ReplaceRuns(s, p, Matches(p, c))
  {
    assert ([c] + s)[0] == c && ([c] + s)[1..] == s;
  }

  /** A replacement works through a concatenation piece by piece. */
  lemma {:induction false} ReplaceRunsAppend(a: seq<char>, b: seq<char>, p: Pattern, inRun: bool)
    ensures ReplaceRuns(a + b, p, inRun) == ReplaceRuns(a, p, inRun) + ReplaceRuns(b, p, RunState(a, p, inRun))
    decreases |a|
  {
    if a == [] {
      assert a + b == b;
    } else {
      var c, rest := a[0], a[1..];
      var m := Matches(p, c);
      var head := if m then (if inRun then [] else [' ']) else [c];
      var t, u := ReplaceRuns(rest, p, m), ReplaceRuns(b, p, RunState(a, p, inRun));
      assert a == [c] + rest && a + b == [c] + (rest + b);
      ReplaceRunsCons(c, rest, p, inRun);
      ReplaceRunsCons(c, rest + b, p, inRun);
      assert RunState(rest, p, m) == RunState(a, p, inRun);
      ReplaceRunsAppend(rest, b, p, m);
      ConcatAssoc(head, t, u);
    }
  }

  /** A non-empty run of separators becomes one space, or nothing inside a run. */
  lemma {:induction false} CollapseRun(run: seq<char>, inRun: bool)
    requires run != [] && forall i :: 0 <= i < |run| ==> IsSeparator(run[i])
    ensures Collapse(run, inRun) == if inRun then [] else [' ']
    decreases |run|
  {
    if |run| > 1 {
      assert forall i :: 0 <= i < |run| - 1 ==> run[1..][i] == run[i + 1];
      CollapseRun(run[1..], true);
    }
  }

  /** A replacement of the separators ends in a space exactly when its input ends
      in a separator, and otherwise ends with the input's last character. */
  lemma {:induction false} CollapseEnd(s: seq<char>, inRun: bool)
    requires s != []
    ensures var c := Collapse(s, inRun);
      && (c != [] ==> (c[|c| - 1] == ' ' <==> IsSeparator(s[|s| - 1])))
      && (!IsSeparator(s[|s| - 1]) ==> c != [] && c[|c| - 1] == s[|s| - 1])
    decreases |s|
  {
    if |s| > 1 {
      CollapseEnd(s[1..], IsSeparator(s[0]));
    }
  }

  /** Trimming the start of a separator replacement is the replacement that starts inside a run. */
  lemma TrimStartOfCollapse(s: seq<char>, inRun: bool)
    ensures TrimStart(Collapse(s, inRun)) == Collapse(s, true)
  {
    if s != [] {
      ReplaceSeparatesSpaces(s[1..], Separator, true);
    }
  }

  /** Cleaning is the separator replacement, started inside a run, with the
      trailing whitespace trimmed. */
  lemma CleanedOnePass(name: seq<char>)
    ensures Cleaned(name) == TrimEnd(Collapse(name, true))
  {
    TwoPassesAreOne(name, false, false);
    TrimStartOfCollapse(name, false);
  }

  /** Trimming the end of a concatenation whose second part keeps a character
      trims only that part. */
  lemma {:induction false} TrimEndAppend(a: seq<char>, b: seq<char>)
    requires Strip(b) != []
    ensures TrimEnd(a + b) == a + TrimEnd(b)
    decreases |b|
  {
    var n := |b| - 1;
    if IsSpace(b[n]) {
      assert b == b[..n] + [b[n]];
      StripAppend(b[..n], [b[n]]);
      assert (a + b)[..|a + b| - 1] == a + b[..n];
      TrimEndAppend(a, b[..n]);
    }
  }

  /** The separator replacement of `x`, a run of separators and `y`: the run
      leaves a space unless `x` already ended in one. */
  lemma CollapseJoin(x: seq<char>, run: seq<char>, y: seq<char>)
    requires x != [] && run != [] && forall i :: 0 <= i < |run| ==> IsSeparator(run[i])
    ensures Collapse(x + run + y, true) ==
              Collapse(x, true) + (if IsSeparator(x[|x| - 1]) then [] else [' ']) + Collapse(y, true)
  {
    var inRun := IsSeparator(x[|x| - 1]);
    assert x + run + y == x + (run + y);
    ReplaceRunsAppend(x, run + y, Separator, true);
    ReplaceRunsAppend(run, y, Separator, inRun);
    CollapseRun(run, inRun);
  }

  /** Before the space a run leaves, the replaced `x` has no trailing whitespace;
      when `x` ends in a separator, its replacement ends in that very space. */
  lemma GapIsOneSpace(x: seq<char>)
    requires Strip(x) != []
    ensures var cx := Collapse(x, true);
      cx + (if IsSeparator(x[|x| - 1]) then [] else [' ']) == TrimEnd(cx) + [' ']
  {
    var cx := Collapse(x, true);
    StripReplace(x, Separator, true);
    CollapseEnd(x, true);
    if IsSeparator(x[|x| - 1]) {
      ReplaceSeparatesSpaces(x, Separator, true);
      TrimEndSingleSpace(cx);
    }
  }

  /** A string ending in a space that is not preceded by whitespace loses just that space to trimming. */
  lemma TrimEndSingleSpace(s: seq<char>)
    requires s != [] && s[|s| - 1] == ' ' && NoDoubleSpace(s)
    ensures TrimEnd(s) + [' '] == s
  {
    var n := |s| - 1;
    assert n > 0 ==> !IsSpace(s[n - 1]);
    assert TrimEnd(s) == TrimEnd(s[..n]) == s[..n];
  }

  /** A run of reserved and whitespace characters between two parts that keep a
      character becomes exactly one space, and each part is cleaned on its own. */
  lemma CleanedJoin(x: seq<char>, run: seq<char>, y: seq<char>)
    requires run != [] && forall i :: 0 <= i < |run| ==> IsSeparator(run[i])
    requires Strip(x) != [] && Strip(y) != []
    ensures Cleaned(x + run + y) == Cleaned(x) + [' '] + Cleaned(y)
  {
    var cx, cy := Collapse(x, true), Collapse(y, true);
    var gap := if IsSeparator(x[|x| - 1]) then [] else [' '];
    CollapseJoin(x, run, y);
    StripReplace(y, Separator, true);
    TrimEndAppend(cx + gap, cy);
    GapIsOneSpace(x);
    CleanedOnePass(x + run + y);
    CleanedOnePass(x);
    CleanedOnePass(y);
  }
}
