/**
 * The string operations the transcription handler and the video script
 * chain together: lower-casing, dropping punctuation, trimming, splitting a
 * comma-separated list, and prefix / suffix / substring tests.
 * A `char` is a Unicode scalar value. JavaScript strings are UTF-16 code units,
 * so a character outside the Basic Multilingual Plane is one `char` here but
 * two units there, and a lone surrogate has no counterpart here.
 */
module Text {

  /** The WhiteSpace and LineTerminator characters that `String.prototype.trim` strips. */
  predicate IsSpace(c: char)
    ensures IsSpace(c) ==> !IsPunct(c) && !IsUpper(c)
  {
    || c == '\t' || c == '\n' || c == '\U{B}' || c == '\U{C}' || c == '\r' || c == ' '
    || c == '\U{A0}' || c == '\U{1680}' || '\U{2000}' <= c <= '\U{200A}'
    || c == '\U{2028}' || c == '\U{2029}' || c == '\U{202F}' || c == '\U{205F}'
    || c == '\U{3000}' || c == '\U{FEFF}'
  }

  /** The characters of the class `[.,!?;:]` that the handler deletes from an utterance. */
  predicate IsPunct(c: char) {
    c == '.' || c == ',' || c == '!' || c == '?' || c == ';' || c == ':'
  }

  predicate IsUpper(c: char) {
    'A' <= c <= 'Z'
  }

  predicate AllSpace(s: string) {
    forall k :: 0 <= k < |s| ==> IsSpace(s[k])
  }

  /** No white space at either end. */
  predicate IsTrimmed(s: string) {
    s == [] || (!IsSpace(s[0]) && !IsSpace(s[|s| - 1]))
  }

  function LowerChar(c: char): (d: char)
    ensures !IsUpper(d)
    ensures IsUpper(c) ==> d as int == c as int + 32
    ensures !IsUpper(c) ==> d == c
  {
    if IsUpper(c) then (c as int + 32) as char else c
  }

  /** `toLowerCase`, on the ASCII letters. */
  function ToLower(s: string): (r: string)
    ensures |r| == |s|
    ensures forall i :: 0 <= i < |r| ==> r[i] == LowerChar(s[i])
  {
    seq(|s|, i requires 0 <= i < |s| => LowerChar(s[i]))
  }

  /** `replace(/[.,!?;:]/g, '')`. */
  function RemovePunct(s: string): (r: string)
    ensures |r| <= |s|
    ensures forall c :: c in r <==> c in s && !IsPunct(c)
  {
    if s == [] then []
    else if IsPunct(s[0]) then RemovePunct(s[1..])
    else [s[0]] + RemovePunct(s[1..])
  }

  function TrimStart(s: string): (r: string)
    ensures |r| <= |s|
    ensures r != [] ==> !IsSpace(r[0]) && r[|r| - 1] == s[|s| - 1]
  {
    if s != [] && IsSpace(s[0]) then TrimStart(s[1..]) else s
  }

  function TrimEnd(s: string): (r: string)
    ensures |r| <= |s|
    ensures r != [] ==> !IsSpace(r[|r| - 1]) && r[0] == s[0]
  {
    if s != [] && IsSpace(s[|s| - 1]) then TrimEnd(s[..|s| - 1]) else s
  }

  /** `TrimStart` cuts exactly the leading white space: what it keeps is a suffix of the input. */
  lemma {:induction false} TrimStartSlice(s: string)
    ensures var r := TrimStart(s); r == s[|s| - |r|..] && AllSpace(s[..|s| - |r|])
    decreases |s|
  {
    if s != [] && IsSpace(s[0]) {
      TrimStartSlice(s[1..]);
      var r := TrimStart(s[1..]);
      var n := |s| - |r|;
      assert s[1..][n - 1..] == s[n..];
      assert forall k :: 0 < k < n ==> s[..n][k] == s[1..][..n - 1][k - 1];
    } else {
      assert s[|s| - |s|..] == s;
    }
  }

  /** `TrimEnd` cuts exactly the trailing white space: what it keeps is a prefix of the input. */
  lemma {:induction false} TrimEndSlice(s: string)
    ensures var r := TrimEnd(s); r == s[..|r|] && AllSpace(s[|r|..])
    decreases |s|
  {
    if s != [] && IsSpace(s[|s| - 1]) {
      TrimEndSlice(s[..|s| - 1]);
      var r := TrimEnd(s[..|s| - 1]);
      assert s[..|s| - 1][..|r|] == s[..|r|];
      assert forall k :: 0 <= k < |s| - 1 - |r| ==> s[|r|..][k] == s[..|s| - 1][|r|..][k];
    } else {
      assert s[..|s|] == s;
    }
  }

  /** `r` is the slice of `s` at offset `i`, and everything of `s` outside it is white space. */
  predicate PaddedAt(s: string, r: string, i: int) {
    0 <= i <= |s| - |r| && r == s[i..i + |r|] && AllSpace(s[..i]) && AllSpace(s[i + |r|..])
  }

  /** `String.prototype.trim`: the white space at both ends cut off. */
  function Trim(s: string): (r: string)
    ensures IsTrimmed(r)
    ensures |r| <= |s|
  {
    TrimEnd(TrimStart(s))
  }

  /** What `Trim` keeps is a slice of the input with only white space around it. */
  lemma TrimSlice(s: string)
    ensures exists i :: PaddedAt(s, Trim(s), i)
  {
    var a := TrimStart(s);
    var r := TrimEnd(a);
    TrimStartSlice(s);
    TrimEndSlice(a);
    var i := |s| - |a|;
    assert r == s[i..i + |r|];
    assert s[i + |r|..] == a[|r|..];
    assert PaddedAt(s, r, i);
    assert r == Trim(s);
  }

  lemma TrimChars(s: string)
    ensures forall c :: c in Trim(s) ==> c in s
  {
    var r := Trim(s);
    TrimSlice(s);
    var i :| PaddedAt(s, r, i);
    forall c | c in r ensures c in s {
      var k :| 0 <= k < |r| && r[k] == c;
      assert s[i + k] == c;
    }
  }

  lemma {:induction false} TrimStartPadded(a: string, t: string)
    requires AllSpace(a)
    requires t == [] || !IsSpace(t[0])
    ensures TrimStart(a + t) == t
    decreases |a|
  {
    if a != [] {
      assert (a + t)[1..] == a[1..] + t;
      TrimStartPadded(a[1..], t);
    } else {
      assert a + t == t;
    }
  }

  lemma {:induction false} TrimEndPadded(t: string, b: string)
    requires AllSpace(b)
    requires t == [] || !IsSpace(t[|t| - 1])
    ensures TrimEnd(t + b) == t
    decreases |b|
  {
    if b != [] {
      assert (t + b)[..|t + b| - 1] == t + b[..|b| - 1];
      TrimEndPadded(t, b[..|b| - 1]);
    } else {
      assert t + b == t;
    }
  }

  /** Trimming undoes padding: white space added around a trimmed string is exactly what `Trim` removes. */
  lemma TrimPadded(a: string, t: string, b: string)
    requires AllSpace(a) && AllSpace(b) && IsTrimmed(t)
    ensures Trim(a + t + b) == t
  {
    if t == [] {
      assert a + t + b == a + b;
      TrimStartPadded(a + b, []);
      assert a + b + [] == a + b;
      TrimEndPadded([], []);
    } else {
      assert a + t + b == a + (t + b);
      TrimStartPadded(a, t + b);
      TrimEndPadded(t, b);
    }
  }

  lemma TrimOfTrimmed(t: string)
    requires IsTrimmed(t)
    ensures Trim(t) == t
  {
    assert [] + t + [] == t;
    TrimPadded([], t, []);
  }

  /**
   * The handler's `toLowerCase().replace(/[.,!?;:]/g, '').trim()`: the result
   * has no upper-case letter, none of `. , ! ? ; :`, and no white space at either end.
   */
  function CleanText(s: string): (r: string)
    ensures IsTrimmed(r)
    ensures forall i :: 0 <= i < |r| ==> !IsUpper(r[i]) && !IsPunct(r[i])
    ensures |r| <= |s|
  {
    var lowered := ToLower(s);
    var stripped := RemovePunct(lowered);
    TrimChars(stripped);
    var r := Trim(stripped);
    assert forall i :: 0 <= i < |r| ==> r[i] in stripped;
    r
  }

  /** Lower-casing works piece by piece. */
  lemma ToLowerAppend(a: string, b: string)
    ensures ToLower(a + b) == ToLower(a) + ToLower(b)
  {
    var l := ToLower(a + b);
    forall i | 0 <= i < |l|
      ensures l[i] == (ToLower(a) + ToLower(b))[i]
    {
      if i < |a| {
        assert (a + b)[i] == a[i];
      } else {
        assert (a + b)[i] == b[i - |a|];
      }
    }
  }

  /** Deleting punctuation works piece by piece. */
  lemma {:induction false} RemovePunctAppend(a: string, b: string)
    ensures RemovePunct(a + b) == RemovePunct(a) + RemovePunct(b)
    decreases |a|
  {
    if a == [] {
      assert a + b == b;
    } else {
      assert (a + b)[0] == a[0] && (a + b)[1..] == a[1..] + b;
      RemovePunctAppend(a[1..], b);
      var k := if IsPunct(a[0]) then [] else [a[0]];
      assert k + (RemovePunct(a[1..]) + RemovePunct(b)) == (k + RemovePunct(a[1..])) + RemovePunct(b);
    }
  }

  /** One character is deleted exactly when it is punctuation. */
  lemma RemovePunctChar(c: char)
    ensures IsPunct(c) ==> RemovePunct([c]) == []
    ensures !IsPunct(c) ==> RemovePunct([c]) == [c]
  {
    assert [c][1..] == [];
  }

  /** Text without punctuation is left as it is. */
  lemma {:induction false} RemovePunctKeeps(s: string)
    requires forall i :: 0 <= i < |s| ==> !IsPunct(s[i])
    ensures RemovePunct(s) == s
    decreases |s|
  {
    if s != [] {
      RemovePunctKeeps(s[1..]);
      assert [s[0]] + s[1..] == s;
    }
  }

  /** Cleaning leaves an already clean utterance unchanged: lower-case, no punctuation, trimmed. */
  lemma CleanTextOfClean(s: string)
    requires IsTrimmed(s)
    requires forall i :: 0 <= i < |s| ==> !IsUpper(s[i]) && !IsPunct(s[i])
    ensures CleanText(s) == s
  {
    assert ToLower(s) == s;
    RemovePunctKeeps(s);
    TrimOfTrimmed(s);
  }

  /**
   * A word with no white space at either end that occurs in `s` still
   * occurs after trimming: trimming cuts white space only.
   */
  lemma TrimKeepsInner(s: string, w: string, i: int)
    requires OccursAt(s, w, i) && w != [] && IsTrimmed(w)
    ensures exists j :: OccursAt(Trim(s), w, j)
  {
    var r := Trim(s);
    TrimSlice(s);
    var p :| PaddedAt(s, r, p);
    assert forall k :: 0 <= k < p ==> IsSpace(s[..p][k]) && s[..p][k] == s[k];
    assert forall k :: p + |r| <= k < |s| ==> IsSpace(s[p + |r|..][k - p - |r|]) && s[p + |r|..][k - p - |r|] == s[k];
    assert s[i] == w[0] && s[i + |w| - 1] == w[|w| - 1];
    assert p <= i && i + |w| <= p + |r|;
    var inR, inS := r[i - p..i - p + |w|], s[i..i + |w|];
    assert forall k :: 0 <= k < |w| ==> inR[k] == inS[k];
    assert OccursAt(r, w, i - p);
  }

  /** `parts.join(sep)`. */
  function Join(parts: seq<string>, sep: char): (r: string)
    ensures |r| >= |parts| - 1
  {
    if parts == [] then ""
    else if |parts| == 1 then parts[0]
    else parts[0] + [sep] + Join(parts[1..], sep)
  }

  /** `s.split(sep)` for a one-character separator: the pieces between separators, including empty ones. */
  function Split(s: string, sep: char): (parts: seq<string>)
    ensures |parts| >= 1
    ensures forall i :: 0 <= i < |parts| ==> sep !in parts[i]
    ensures Join(parts, sep) == s
  {
    if s == [] then [""]
    else
      var rest := Split(s[1..], sep);
      if s[0] == sep then
        assert ([""] + rest)[1..] == rest;
        [""] + rest
      else
        var parts := [[s[0]] + rest[0]] + rest[1..];
        assert parts[1..] == rest[1..];
        assert |rest| > 1 ==> Join(rest, sep) == rest[0] + [sep] + Join(rest[1..], sep);
        parts
  }

  lemma {:induction false} SplitPrefix(p: string, t: string, sep: char)
    requires sep !in p
    ensures Split(p + t, sep) == [p + Split(t, sep)[0]] + Split(t, sep)[1..]
    decreases |p|
  {
    if p != [] {
      assert (p + t)[0] == p[0] && p[0] != sep;
      assert (p + t)[1..] == p[1..] + t;
      SplitPrefix(p[1..], t, sep);
      assert [p[0]] + (p[1..] + Split(t, sep)[0]) == p + Split(t, sep)[0];
    } else {
      assert p + t == t;
      var st := Split(t, sep);
      assert p + st[0] == st[0];
      assert [st[0]] + st[1..] == st;
    }
  }

  /** Splitting undoes joining when no piece contains the separator. */
  lemma {:induction false} SplitJoin(parts: seq<string>, sep: char)
    requires |parts| >= 1
    requires forall i :: 0 <= i < |parts| ==> sep !in parts[i]
    ensures Split(Join(parts, sep), sep) == parts
  {
    if |parts| == 1 {
      assert parts[0] + [] == parts[0];
      SplitPrefix(parts[0], [], sep);
    } else {
      var tail := Join(parts[1..], sep);
      SplitJoin(parts[1..], sep);
      assert ([sep] + tail)[1..] == tail;
      assert Split([sep] + tail, sep) == [""] + parts[1..];
      assert parts[0] + [sep] + tail == parts[0] + ([sep] + tail);
      SplitPrefix(parts[0], [sep] + tail, sep);
      assert parts[0] + "" == parts[0];
      assert [parts[0]] + parts[1..] == parts;
    }
  }

  /** No string of `parts` contains `c`. */
  predicate Free(parts: seq<string>, c: char) {
    forall i :: 0 <= i < |parts| ==> c !in parts[i]
  }

  /** One piece trimmed, kept only if something is left. */
  function TrimPiece(x: string): (kept: seq<string>)
    ensures |kept| <= 1
    ensures forall i :: 0 <= i < |kept| ==> kept[i] != [] && IsTrimmed(kept[i])
    ensures forall c :: c !in x ==> Free(kept, c)
    ensures Trim(x) != [] ==> kept == [Trim(x)]
    ensures Trim(x) == [] ==> kept == []
  {
    TrimChars(x);
    var t := Trim(x);
    if t == [] then [] else [t]
  }

  /** `.map(t => t.trim()).filter(Boolean)`. */
  function TrimNonEmpty(parts: seq<string>): (labels: seq<string>)
    ensures |labels| <= |parts|
    ensures forall i :: 0 <= i < |labels| ==> labels[i] != [] && IsTrimmed(labels[i])
    ensures forall c :: Free(parts, c) ==> Free(labels, c)
  {
    if parts == [] then []
    else
      var rest := TrimNonEmpty(parts[1..]);
      assert forall c :: Free(parts, c) ==> Free(parts[1..], c);
      TrimPiece(parts[0]) + rest
  }

  /**
   * `s.split(',').map(t => t.trim()).filter(Boolean)`, the parse of both the
   * detector's label string and the configured voice-id list.
   */
  function ParseList(s: string): (labels: seq<string>)
    ensures forall i :: 0 <= i < |labels| ==> labels[i] != [] && IsTrimmed(labels[i])
    ensures Free(labels, ',')
  {
    var parts := Split(s, ',');
    assert Free(parts, ',');
    TrimNonEmpty(parts)
  }

  lemma {:induction false} TrimNonEmptyKeeps(labels: seq<string>)
    requires forall i :: 0 <= i < |labels| ==> labels[i] != [] && IsTrimmed(labels[i])
    ensures TrimNonEmpty(labels) == labels
  {
    if labels != [] {
      assert IsTrimmed(labels[0]);
      TrimOfTrimmed(labels[0]);
      assert TrimPiece(labels[0]) == [labels[0]];
      var rest := labels[1..];
      assert TrimNonEmpty(labels) == [labels[0]] + TrimNonEmpty(rest);
      assert forall i :: 0 <= i < |rest| ==> rest[i] != [] && IsTrimmed(rest[i]);
      TrimNonEmptyKeeps(rest);
      assert [labels[0]] + rest == labels;
    }
  }

  /** Parsing a list undoes joining it: non-empty, trimmed, comma-free labels come back unchanged. */
  lemma ParseJoin(labels: seq<string>)
    requires forall i :: 0 <= i < |labels| ==> labels[i] != [] && IsTrimmed(labels[i])
    requires Free(labels, ',')
    ensures ParseList(Join(labels, ',')) == labels
  {
    if labels == [] {
      assert Split("", ',') == [""];
      assert TrimPiece("") == [];
    } else {
      SplitJoin(labels, ',');
      TrimNonEmptyKeeps(labels);
    }
  }

  lemma {:induction false} TrimNonEmptyAppend(xs: seq<string>, ys: seq<string>)
    ensures TrimNonEmpty(xs + ys) == TrimNonEmpty(xs) + TrimNonEmpty(ys)
  {
    if xs == [] {
      assert xs + ys == ys;
    } else {
      var zs := xs + ys;
      assert zs[0] == xs[0] && zs[1..] == xs[1..] + ys;
      TrimNonEmptyAppend(xs[1..], ys);
      var a, b, c := TrimPiece(xs[0]), TrimNonEmpty(xs[1..]), TrimNonEmpty(ys);
      assert a + (b + c) == (a + b) + c;
    }
  }

  /** A trailing separator adds an empty piece, which the parse drops. */
  lemma ParseJoinTrailingComma(labels: seq<string>)
    requires forall i :: 0 <= i < |labels| ==> labels[i] != [] && IsTrimmed(labels[i])
    requires Free(labels, ',')
    ensures ParseList(Join(labels + [""], ',')) == labels
  {
    forall i | 0 <= i < |labels|
      ensures Trim(labels[i]) == labels[i]
    {
      TrimOfTrimmed(labels[i]);
    }
    ParseJoinPadded(labels, labels);
  }

  /** The label string the detector is documented to return yields its three labels; the trailing comma adds nothing. */
  lemma ParseDetectorExample()
    ensures ParseList("soda can,water bottle,sunglasses,") == ["soda can", "water bottle", "sunglasses"]
  {
    var labels := ["soda can", "water bottle", "sunglasses"];
    var pieces := labels + [""];
    assert Join(pieces[3..], ',') == "";
    assert Join(pieces[2..], ',') == "sunglasses,";
    assert Join(pieces[1..], ',') == "water bottle,sunglasses,";
    assert Join(pieces, ',') == "soda can,water bottle,sunglasses,";
    ParseJoinTrailingComma(labels);
  }

  /** Each piece trims to the label at the same position, and no label is empty. */
  predicate TrimsTo(pieces: seq<string>, labels: seq<string>) {
    |pieces| == |labels| && forall i :: 0 <= i < |pieces| ==> Trim(pieces[i]) == labels[i] && labels[i] != []
  }

  /** Pieces that each trim to a non-empty label are kept, in order, as those labels. */
  lemma {:induction false} TrimNonEmptyTrimmed(pieces: seq<string>, labels: seq<string>)
    requires TrimsTo(pieces, labels)
    ensures TrimNonEmpty(pieces) == labels
  {
    if pieces != [] {
      assert Trim(pieces[0]) == labels[0] && labels[0] != [];
      assert TrimPiece(pieces[0]) == [labels[0]];
      assert TrimsTo(pieces[1..], labels[1..]) by {
        forall i | 0 <= i < |pieces| - 1
          ensures Trim(pieces[1..][i]) == labels[1..][i] && labels[1..][i] != []
        {
          assert pieces[1..][i] == pieces[i + 1] && labels[1..][i] == labels[i + 1];
        }
      }
      TrimNonEmptyTrimmed(pieces[1..], labels[1..]);
      assert [labels[0]] + labels[1..] == labels;
    }
  }

  /**
   * White space around the labels of a comma-joined list, and a trailing
   * comma, make no difference to the parse.
   */
  lemma ParseJoinPadded(pieces: seq<string>, labels: seq<string>)
    requires TrimsTo(pieces, labels)
    requires Free(pieces, ',')
    ensures ParseList(Join(pieces + [""], ',')) == labels
  {
    var all := pieces + [""];
    assert Free(all, ',');
    SplitJoin(all, ',');
    TrimNonEmptyAppend(pieces, [""]);
    TrimNonEmptyTrimmed(pieces, labels);
    assert TrimPiece("") == [];
    assert TrimNonEmpty([""]) == [];
    assert labels + [] == labels;
  }

  /**
   * A label list written with a space after each comma, a repeated label and a
   * trailing comma ("soda can, water bottle, soda can,") parses to its labels
   * in order, the repetition included: removing duplicates is left to the registry.
   */
  lemma ParseSpacedList(a: string, b: string)
    requires a != [] && IsTrimmed(a) && ',' !in a
    requires b != [] && IsTrimmed(b) && ',' !in b
    ensures ParseList(a + ", " + b + ", " + a + ",") == [a, b, a]
  {
    var pieces := [a, [' '] + b, [' '] + a];
    SpacedJoin(a, b, pieces);
    SpacedTrim(a, b, pieces);
    SpacedFree(a, b, pieces);
    ParseJoinPadded(pieces, [a, b, a]);
  }

  /** The pieces of "a, b, a," joined back. */
  lemma SpacedJoin(a: string, b: string, pieces: seq<string>)
    requires pieces == [a, [' '] + b, [' '] + a]
    ensures Join(pieces + [""], ',') == a + ", " + b + ", " + a + ","
  {
    var pa, pb := [' '] + a, [' '] + b;
    var all := pieces + [""];
    assert all[3..] == [""];
    assert Join(all[2..], ',') == pa + [','];
    assert Join(all[1..], ',') == pb + [','] + (pa + [',']);
    assert Join(all, ',') == a + [','] + (pb + [','] + (pa + [',']));
    assert a + ", " + b + ", " + a + "," == a + [','] + (pb + [','] + (pa + [',']));
  }

  /** The pieces of "a, b, a," trimmed. */
  lemma SpacedTrim(a: string, b: string, pieces: seq<string>)
    requires a != [] && IsTrimmed(a) && b != [] && IsTrimmed(b)
    requires pieces == [a, [' '] + b, [' '] + a]
    ensures TrimsTo(pieces, [a, b, a])
  {
    var labels := [a, b, a];
    forall i | 0 <= i < 3
      ensures Trim(pieces[i]) == labels[i]
    {
      if i == 0 {
        TrimOfTrimmed(a);
      } else {
        assert AllSpace([' ']);
        assert pieces[i] == [' '] + labels[i] + "";
        TrimPadded([' '], labels[i], "");
      }
    }
  }

  /** The pieces of "a, b, a," hold no comma. */
  lemma SpacedFree(a: string, b: string, pieces: seq<string>)
    requires ',' !in a && ',' !in b
    requires pieces == [a, [' '] + b, [' '] + a]
    ensures Free(pieces, ',')
  {
    assert ',' !in pieces[1] && ',' !in pieces[2];
  }

  /** `s.startsWith(p)`. */
  predicate StartsWith(s: string, p: string)
    ensures StartsWith(s, p) ==> |p| <= |s|
  {
    |p| <= |s| && s[..|p|] == p
  }

  /** `s.endsWith(p)`. */
  predicate EndsWith(s: string, p: string)
    ensures EndsWith(s, p) ==> |p| <= |s|
  {
    |p| <= |s| && s[|s| - |p|..] == p
  }

  predicate OccursAt(s: string, w: string, i: int) {
    0 <= i <= |s| - |w| && s[i..i + |w|] == w
  }

  /** `s.includes(w)`: `w` occurs in `s` at some offset. */
  function Contains(s: string, w: string): (r: bool)
    ensures r <==> exists i :: OccursAt(s, w, i)
    decreases |s|
  {
    if |s| < |w| then false
    else if s[..|w|] == w then
      assert OccursAt(s, w, 0);
      true
    else
      var r := Contains(s[1..], w);
      assert forall i :: OccursAt(s[1..], w, i) ==> OccursAt(s, w, i + 1);
      assert forall i :: OccursAt(s, w, i) ==> i == 0 || OccursAt(s[1..], w, i - 1);
      r
  }
}
