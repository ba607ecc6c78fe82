/**
 * The string handling of controllers/main.py: Python's `str.find`, `strip` and `split(' - ')[0]`, the `int()` and
 * `float()` conversions of request strings, and the note that a stock withdrawal writes on its shadow delivery,
 * from which `_extract_motif_from_notes` reads the reason back.
 */
module Text {
  import opened Wrappers

  // ---------------------------------------------------------------------------
  // `find`, `strip`, `split`
  // ---------------------------------------------------------------------------

  /** Which whitespace is removed: that of the `str` methods `strip`, `lstrip` and `rstrip`, or that which `int()`
      and `float()` skip around a number. */
  datatype Spaces = StrSpaces | NumberSpaces

  /** The characters Python's `str.isspace` accepts: tab to carriage return, the four ASCII separators 0x1C-0x1F,
      the space, NEL, the no-break space, and the Unicode spaces and line/paragraph separators. The `str` methods
      remove all of them; `int()` and `float()` skip all but the four separators. */
  predicate IsSpace(c: char, w: Spaces) {
    var n := c as int;
    (9 <= n <= 13) || (w == StrSpaces && 0x1C <= n <= 0x1F) || n == 0x20 || n == 0x85 || n == 0xA0 || n == 0x1680
    || (0x2000 <= n <= 0x200A) || n == 0x2028 || n == 0x2029 || n == 0x202F || n == 0x205F || n == 0x3000
  }

  /** `key` occurs in `s` at position `i`. */
  predicate Occurs(s: string, key: string, i: int) {
    0 <= i && i + |key| <= |s| && s[i..i + |key|] == key
  }

  /** `s` contains no occurrence of `key`. */
  predicate Free(s: string, key: string) {
    forall j :: 0 <= j <= |s| ==> !Occurs(s, key, j)
  }

  /** A character of `s` that differs from the matching character of `key` rules out an occurrence at `j`. */
  lemma Mismatch(s: string, key: string, j: int, k: int)
    requires 0 <= j <= k < j + |key| && k < |s| && s[k] != key[k - j]
    ensures !Occurs(s, key, j)
  {
    if j + |key| <= |s| {
      assert s[j..j + |key|][k - j] == s[k];
    }
  }

  /** `s.find(key, i)`: the first position from `i` on at which `key` occurs, or none. */
  function FindFrom(s: string, key: string, i: nat): (r: Option<nat>)
    ensures r.Some? ==> i <= r.value && Occurs(s, key, r.value) && forall j :: i <= j < r.value ==> !Occurs(s, key, j)
    ensures r.None? <==> forall j :: i <= j <= |s| ==> !Occurs(s, key, j)
    decreases |s| - i
  {
    if i + |key| > |s| then None
    else if s[i..i + |key|] == key then assert Occurs(s, key, i); Some(i)
    else FindFrom(s, key, i + 1)
  }

  /** `s.find(key)`: the first position at which `key` occurs, or none where Python returns -1. */
  function Find(s: string, key: string): (r: Option<nat>)
    ensures r.Some? ==> Occurs(s, key, r.value) && forall j :: 0 <= j < r.value ==> !Occurs(s, key, j)
    ensures r.None? <==> Free(s, key)
  {
    FindFrom(s, key, 0)
  }

  /** An occurrence inside a slice is an occurrence in the whole string. */
  lemma FreeSlice(s: string, key: string, a: nat, b: nat)
    requires a <= b <= |s| && Free(s, key)
    ensures Free(s[a..b], key)
  {
    forall j | 0 <= j <= |s[a..b]| ensures !Occurs(s[a..b], key, j) {
      if Occurs(s[a..b], key, j) {
        OccursInSlice(s, key, a, b, j);
      }
    }
  }

  lemma OccursInSlice(s: string, key: string, a: nat, b: nat, j: nat)
    requires a <= b <= |s| && Occurs(s[a..b], key, j)
    ensures Occurs(s, key, a + j)
  {
    forall t | 0 <= t < |key| ensures s[a + j + t] == key[t] {
      assert s[a..b][j..j + |key|][t] == key[t];
    }
    assert s[a + j..a + j + |key|] == key;
  }

  /** `s.lstrip()` (with `StrSpaces`): the suffix of `s` after its leading whitespace of kind `w`. */
  function LStrip(s: string, w: Spaces): (r: string)
    ensures |r| <= |s| && r == s[|s| - |r|..]
    ensures r == [] || !IsSpace(r[0], w)
    ensures forall i :: 0 <= i < |s| - |r| ==> IsSpace(s[i], w)
  {
    if s != [] && IsSpace(s[0], w) then LStrip(s[1..], w) else s
  }

  /** `s.rstrip()` (with `StrSpaces`): the prefix of `s` before its trailing whitespace of kind `w`. */
  function RStrip(s: string, w: Spaces): (r: string)
    ensures |r| <= |s| && r == s[..|r|]
    ensures r == [] || !IsSpace(r[|r| - 1], w)
    ensures forall i :: |r| <= i < |s| ==> IsSpace(s[i], w)
  {
    if s != [] && IsSpace(s[|s| - 1], w) then RStrip(s[..|s| - 1], w) else s
  }

  /** Where `s.strip()` starts: the number of leading whitespace characters. */
  function StripStart(s: string, w: Spaces): nat {
    |s| - |LStrip(s, w)|
  }

  /** `s.strip()` (with `StrSpaces`), or the text `int()` and `float()` read (with `NumberSpaces`): `s` without its
      leading and trailing whitespace of kind `w`, the slice of `s` after its leading whitespace. */
  function Strip(s: string, w: Spaces): (r: string)
    ensures r == [] || (!IsSpace(r[0], w) && !IsSpace(r[|r| - 1], w))
    ensures StripStart(s, w) + |r| <= |s| && r == s[StripStart(s, w)..StripStart(s, w) + |r|]
  {
    RStrip(LStrip(s, w), w)
  }

  /** Whitespace is only removed at the ends: a string already without surrounding whitespace is kept. */
  lemma StripTrimmed(s: string, w: Spaces)
    requires s == [] || (!IsSpace(s[0], w) && !IsSpace(s[|s| - 1], w))
    ensures Strip(s, w) == s
  {
  }

  /** The separator between the parts of a withdrawal note. */
  const Sep: string := " - "

  /** `s.split(' - ')[0]`: the text before the first separator, or all of `s`. */
  function BeforeSep(s: string): (r: string)
    ensures Free(r, Sep)
    ensures |r| <= |s| && r == s[..|r|]
    ensures |r| < |s| ==> Occurs(s, Sep, |r|)
  {
    match Find(s, Sep)
    case None => s
    case Some(i) =>
      assert Free(s[..i], Sep) by {
        forall j | 0 <= j <= i ensures !Occurs(s[..i], Sep, j) {
          if j + 3 <= i {
            assert s[..i][j..j + 3] == s[j..j + 3];
            assert !Occurs(s, Sep, j);
          }
        }
      }
      s[..i]
  }

  // ---------------------------------------------------------------------------
  // The motif of a stock withdrawal
  // ---------------------------------------------------------------------------

  /** The label before a withdrawal's motif in its shadow delivery's note. */
  const Key: string := "Sortie de stock:"

  /** A motif that reads back unchanged: non-empty, no surrounding whitespace, no separator. */
  predicate Clean(m: string) {
    m != [] && !IsSpace(m[0], StrSpaces) && !IsSpace(m[|m| - 1], StrSpaces) && Free(m, Sep)
  }

  /** The motif read from the text after the label: left-stripped, cut at the first separator, stripped, and none
      if nothing is left. */
  function MotifAfter(rest: string): (r: Option<string>)
    ensures r.Some? ==> Clean(r.value)
  {
    var cut := BeforeSep(LStrip(rest, StrSpaces));
    StripClean(cut);
    var m := Strip(cut, StrSpaces);
    if m == [] then None else Some(m)
  }

  /** Stripping a string without separator leaves, unless it empties it, a clean motif. */
  lemma StripClean(cut: string)
    requires Free(cut, Sep)
    ensures Strip(cut, StrSpaces) != [] ==> Clean(Strip(cut, StrSpaces))
  {
    var m, k := Strip(cut, StrSpaces), StripStart(cut, StrSpaces);
    assert k + |m| <= |cut| && m == cut[k..k + |m|];
    FreeSlice(cut, Sep, k, k + |m|);
  }

  /** `_extract_motif_from_notes`: none for empty notes or notes without the label; otherwise the motif read from
      the text after the first label. */
  function ExtractMotif(notes: Option<string>): (r: Option<string>)
    ensures r.Some? ==> Clean(r.value)
    ensures r.Some? ==> notes.Some? && !Free(notes.value, Key)
    ensures notes.None? || notes.value == [] || Free(notes.value, Key) ==> r.None?
  {
    if notes.None? || notes.value == [] then None
    else
      match Find(notes.value, Key)
      case None => None
      case Some(idx) => MotifAfter(notes.value[idx + |Key|..])
  }

  /** The user's notes in front of the withdrawal text: `notes + ' | '` when the notes are non-empty. */
  function NotesPrefix(notes: Option<string>): (r: string)
    ensures notes.None? || notes.value == [] <==> r == []
  {
    if notes.None? || notes.value == [] then [] else notes.value + " | "
  }

  /** The note `create_sortie_stock` writes on the shadow delivery, with the bag count and the amount already
      formatted (`:.2f` and `:.0f`). */
  function ShadowNote(notes: Option<string>, motif: string, sacsText: string, montantText: string): (r: string)
    ensures |r| >= |NotesPrefix(notes)| + |Key| + 1 + |motif| + |Sep|
    ensures r[..|NotesPrefix(notes)|] == NotesPrefix(notes)
    ensures r[|NotesPrefix(notes)|..|NotesPrefix(notes)| + |Key|] == Key
  {
    NotesPrefix(notes) + Key + " " + motif + Sep + sacsText + " sacs" + Sep + montantText + " FC"
  }

  /** `motif` ends with a space and a dash, so that with the following separator it forms an earlier separator. */
  predicate EndsWithSpaceDash(m: string) {
    |m| >= 2 && m[|m| - 2] == ' ' && m[|m| - 1] == '-'
  }

  /** The label occurs in a shadow note first where the withdrawal text starts, when the user's notes do not
      contain it: no occurrence can straddle the user's notes and the `' | '` joint. */
  lemma KeyFirstInNote(notes: Option<string>, rest: string)
    requires notes.Some? ==> Free(notes.value, Key)
    ensures Find(NotesPrefix(notes) + Key + rest, Key) == Some(|NotesPrefix(notes)|)
  {
    var p := NotesPrefix(notes);
    var n := p + Key + rest;
    assert n[|p|..|p| + |Key|] == Key;
    assert Occurs(n, Key, |p|);
    assert '|' !in Key;
    forall j | 0 <= j < |p| ensures !Occurs(n, Key, j) {
      var u := notes.value;
      assert n[..|u|] == u && n[|u|] == ' ' && n[|u| + 1] == '|' && n[|u| + 2] == ' ' && |p| == |u| + 3;
      if j + |Key| <= |u| {
        assert n[j..j + |Key|] == u[j..j + |Key|];
        assert !Occurs(u, Key, j);
      } else if j <= |u| + 1 && j + |Key| > |u| + 1 {
        assert Key[|u| + 1 - j] in Key;
        Mismatch(n, Key, j, |u| + 1);
      } else if j + |Key| == |u| + 1 {
        Mismatch(n, Key, j, |u|);
      } else {
        Mismatch(n, Key, j, j);
      }
    }
    assert Find(n, Key) == Some(|p|);
  }

  /** The separator occurs in the withdrawal text first right after the motif. */
  lemma SepFirstAfterMotif(motif: string, tail: string)
    requires Clean(motif) && !EndsWithSpaceDash(motif)
    ensures Find(motif + Sep + tail, Sep) == Some(|motif|)
  {
    var s := motif + Sep + tail;
    assert s[|motif|..|motif| + 3] == Sep;
    assert Occurs(s, Sep, |motif|);
    assert s[..|motif|] == motif;
    forall j | 0 <= j < |motif| ensures !Occurs(s, Sep, j) {
      if j + 3 <= |motif| {
        assert motif[j..j + 3] == s[j..j + 3];
        assert !Occurs(motif, Sep, j);
      } else if j == |motif| - 1 {
        Mismatch(s, Sep, j, j);
      } else if motif[j] != ' ' {
        Mismatch(s, Sep, j, j);
      } else {
        Mismatch(s, Sep, j, j + 1);
      }
    }
  }

  /** The withdrawal text after the label: a space, the motif, the separator and the rest. */
  lemma ShadowNoteShape(notes: Option<string>, motif: string, sacsText: string, montantText: string)
    ensures var tail := sacsText + " sacs" + Sep + montantText + " FC";
            ShadowNote(notes, motif, sacsText, montantText) == NotesPrefix(notes) + Key + (" " + (motif + Sep + tail))
  {
  }

  /** Reading the text after the label gives back a motif that is clean and does not end with `' -'`. */
  lemma MotifAfterWritten(motif: string, tail: string)
    requires Clean(motif) && !EndsWithSpaceDash(motif)
    ensures MotifAfter(" " + (motif + Sep + tail)) == Some(motif)
  {
    var after := motif + Sep + tail;
    assert (" " + after)[1..] == after;
    assert LStrip(" " + after, StrSpaces) == after;
    SepFirstAfterMotif(motif, tail);
    assert after[..|motif|] == motif;
    assert BeforeSep(after) == motif;
    StripTrimmed(motif, StrSpaces);
  }

  /** Round trip of the withdrawal note: the motif written by `create_sortie_stock` is read back exactly when it is
      clean, does not end with `' -'`, and the user's notes do not contain the label. */
  lemma MotifRoundTrip(notes: Option<string>, motif: string, sacsText: string, montantText: string)
    requires Clean(motif) && !EndsWithSpaceDash(motif)
    requires notes.Some? ==> Free(notes.value, Key)
    ensures ExtractMotif(Some(ShadowNote(notes, motif, sacsText, montantText))) == Some(motif)
  {
    var tail := sacsText + " sacs" + Sep + montantText + " FC";
    var text := " " + (motif + Sep + tail);
    var p := NotesPrefix(notes);
    var n := p + Key + text;
    ShadowNoteShape(notes, motif, sacsText, montantText);
    KeyFirstInNote(notes, text);
    assert n[|p| + |Key|..] == text;
    assert ExtractMotif(Some(n)) == MotifAfter(text);
    MotifAfterWritten(motif, tail);
  }

  /** The text after the label in the note of a withdrawal with motif `"a -"` reads as `"a"`. */
  lemma MotifAfterDashEnding(tail: string)
    ensures MotifAfter(" " + ("a -" + Sep + tail)) == Some("a")
  {
    var after := "a -" + Sep + tail;
    var text := " " + after;
    assert text[1..] == after;
    assert LStrip(text, StrSpaces) == after;
    assert after[1..4] == Sep;
    assert Occurs(after, Sep, 1);
    Mismatch(after, Sep, 0, 0);
    assert Find(after, Sep) == Some(1);
    assert BeforeSep(after) == "a";
    StripTrimmed("a", StrSpaces);
  }

  /** The motif `"a -"` is clean and ends with `' -'`. */
  lemma DashEndingClean()
    ensures Clean("a -") && EndsWithSpaceDash("a -")
  {
    forall j | 0 <= j <= 3 ensures !Occurs("a -", Sep, j) {
      if j == 0 {
        Mismatch("a -", Sep, 0, 0);
      }
    }
  }

  /** Without the `' -'` condition the round trip fails: the clean motif `"a -"` reads back as `"a"`, whatever the
      user's notes (without the label) and the formatted numbers. */
  lemma MotifEndingWithDashIsCut(notes: Option<string>, sacsText: string, montantText: string)
    requires notes.Some? ==> Free(notes.value, Key)
    ensures ExtractMotif(Some(ShadowNote(notes, "a -", sacsText, montantText))) == Some("a")
  {
    var tail := sacsText + " sacs" + Sep + montantText + " FC";
    var text := " " + ("a -" + Sep + tail);
    var p := NotesPrefix(notes);
    var n := p + Key + text;
    ShadowNoteShape(notes, "a -", sacsText, montantText);
    KeyFirstInNote(notes, text);
    assert n[|p| + |Key|..] == text;
    MotifAfterDashEnding(tail);
  }

  // ---------------------------------------------------------------------------
  // `int()` and `float()` of request strings
  // ---------------------------------------------------------------------------

  predicate IsDigit(c: char) {
    '0' <= c <= '9'
  }

  predicate AllDigits(s: string) {
    forall i :: 0 <= i < |s| ==> IsDigit(s[i])
  }

  /** The value of a string of decimal digits. */
  function DigitsValue(s: string): (n: nat)
    requires AllDigits(s)
    ensures s == [] ==> n == 0
  {
    if s == [] then 0 else DigitsValue(s[..|s| - 1]) * 10 + (s[|s| - 1] as int - '0' as int)
  }

  function Pow10(k: nat): (r: nat)
    ensures r >= 1
  {
    if k == 0 then 1 else 10 * Pow10(k - 1)
  }

  /** The sign of an optional leading `+` or `-`, and the text after it. */
  function Signed(t: string): (int, string) {
    if t != [] && (t[0] == '-' || t[0] == '+') then (if t[0] == '-' then -1 else 1, t[1..]) else (1, t)
  }

  /** `int(s)`: surrounding whitespace, an optional sign, then one or more decimal digits; anything else raises,
      which is none here. Digit group underscores and non-ASCII digits are not modelled. */
  function ParseInt(s: string): (r: Option<int>)
    ensures r.Some? ==> var (sign, body) := Signed(Strip(s, NumberSpaces)); body != [] && AllDigits(body)
  {
    var (sign, body) := Signed(Strip(s, NumberSpaces));
    if body != [] && AllDigits(body) then Some(sign * DigitsValue(body)) else None
  }

  /** `float(s)`: surrounding whitespace, an optional sign, then digits with at most one decimal point and at least
      one digit; anything else raises, which is none here. Exponents, `inf` and `nan` are not modelled. */
  function ParseFloat(s: string): (r: Option<real>)
    ensures r.Some? ==> var (sign, body) := Signed(Strip(s, NumberSpaces)); body != []
  {
    var (sign, body) := Signed(Strip(s, NumberSpaces));
    match Find(body, ".")
    case None =>
      if body != [] && AllDigits(body) then Some((sign * DigitsValue(body)) as real) else None
    case Some(i) =>
      var whole, frac := body[..i], body[i + 1..];
      if (whole != [] || frac != []) && AllDigits(whole) && AllDigits(frac)
      then Some(sign as real * (DigitsValue(whole) as real + DigitsValue(frac) as real / Pow10(|frac|) as real))
      else None
  }

  /** A text `int()` accepts is accepted by `float()` with the same value. */
  lemma ParseFloatOfInt(s: string)
    requires ParseInt(s).Some?
    ensures ParseFloat(s) == Some(ParseInt(s).value as real)
  {
    var (sign, body) := Signed(Strip(s, NumberSpaces));
    forall j | 0 <= j <= |body| ensures !Occurs(body, ".", j) {
      if j < |body| {
        Mismatch(body, ".", j, j);
      }
    }
  }

  /** `int(x)` of a JSON number: truncation toward zero. */
  function Trunc(x: real): (r: int)
    ensures x >= 0.0 ==> 0 <= r && r as real <= x < r as real + 1.0
    ensures x < 0.0 ==> r as real - 1.0 < x <= r as real <= 0.0
  {
    if x >= 0.0 then x.Floor else -((-x).Floor)
  }
}
