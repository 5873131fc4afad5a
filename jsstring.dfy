/**
  The JavaScript string built-ins that the scaffolding script relies on:
  `startsWith`, `indexOf`, `replace` with a string pattern (including the
  expansion of `$` patterns in the replacement, as ECMAScript's
  GetSubstitution does it), and `split`/`join` on a one-character separator.
  Strings are sequences of `char`; JavaScript's UTF-16 code units are taken to
  be these characters.
*/
module JsString {
  import opened Wrappers

  /** `s.startsWith(prefix)`. */
  predicate StartsWith(s: string, prefix: string)
  {
    |prefix| <= |s| && s[..|prefix|] == prefix
  }

  /** `pat` occurs in `s` at position `i`. */
  predicate OccursAt(s: string, pat: string, i: nat)
  {
    i + |pat| <= |s| && s[i..i + |pat|] == pat
  }

  /** `i` is the position of the first occurrence of `pat` in `s`. */
  ghost predicate IsFirstOccurrence(s: string, pat: string, i: nat)
  {
    OccursAt(s, pat, i) && forall j: nat :: j < i ==> !OccursAt(s, pat, j)
  }

  /** `pat` does not occur in `s` at all. */
  ghost predicate Absent(s: string, pat: string)
  {
    forall j: nat :: !OccursAt(s, pat, j)
  }

  /** `s.indexOf(pat, k)`, with `None` standing for JavaScript's -1. */
  function IndexFrom(s: string, pat: string, k: nat): (r: Option<nat>)
    requires k <= |s|
    ensures r.Some? ==> k <= r.value && OccursAt(s, pat, r.value)
    ensures r.Some? ==> forall j: nat :: k <= j < r.value ==> !OccursAt(s, pat, j)
    ensures r.None? ==> forall j: nat :: k <= j ==> !OccursAt(s, pat, j)
    decreases |s| - k
  {
    if OccursAt(s, pat, k) then Some(k)
    else if k == |s| then None
    else IndexFrom(s, pat, k + 1)
  }

  /** `s.indexOf(pat)`: the first occurrence, or `None` when there is none. */
  function IndexOf(s: string, pat: string): (r: Option<nat>)
    ensures r.Some? <==> !Absent(s, pat)
    ensures r.Some? ==> IsFirstOccurrence(s, pat, r.value)
  {
    IndexFrom(s, pat, 0)
  }

  /**
    The replacement text that `replace` inserts for a match of a string pattern
    (ECMAScript's GetSubstitution with no capture groups): `$$` is `$`, `$&` is
    the matched text, `` $` `` the text before the match and `$'` the text
    after it; every other `$` is literal.
  */
  function Substitution(template: string, matched: string, before: string, after: string): string
  {
    if |template| == 0 then ""
    else if template[0] == '$' && 2 <= |template| && template[1] == '$' then
      "$" + Substitution(template[2..], matched, before, after)
    else if template[0] == '$' && 2 <= |template| && template[1] == '&' then
      matched + Substitution(template[2..], matched, before, after)
    else if template[0] == '$' && 2 <= |template| && template[1] == '`' then
      before + Substitution(template[2..], matched, before, after)
    else if template[0] == '$' && 2 <= |template| && template[1] == '\'' then
      after + Substitution(template[2..], matched, before, after)
    else
      [template[0]] + Substitution(template[1..], matched, before, after)
  }

  /** A replacement without `$` is inserted exactly as given. */
  lemma {:induction false} SubstitutionLiteral(template: string, matched: string, before: string, after: string)
    requires '$' !in template
    ensures Substitution(template, matched, before, after) == template
  {
    if |template| > 0 {
      SubstitutionLiteral(template[1..], matched, before, after);
    }
  }

  /** `$&` puts the matched text back. */
  lemma SubstitutionMatched(matched: string, before: string, after: string)
    ensures Substitution("$&", matched, before, after) == matched
  {
  }

  /**
    `s.replace(pat, rep)` with a string pattern: only the first occurrence of
    `pat` is replaced; without an occurrence the text is returned unchanged.
  */
  function ReplaceFirst(s: string, pat: string, rep: string): (r: string)
    ensures Absent(s, pat) ==> r == s
    ensures forall i: nat :: IsFirstOccurrence(s, pat, i) ==>
      r == s[..i] + Substitution(rep, pat, s[..i], s[i + |pat|..]) + s[i + |pat|..]
  {
    match IndexOf(s, pat)
    case None => s
    case Some(i) =>
      s[..i] + Substitution(rep, pat, s[..i], s[i + |pat|..]) + s[i + |pat|..]
  }

  /** There is at most one first occurrence. */
  lemma FirstOccurrenceUnique(s: string, pat: string, i: nat, j: nat)
    requires IsFirstOccurrence(s, pat, i) && IsFirstOccurrence(s, pat, j)
    ensures i == j
  {
  }

  /**
    With a replacement free of `$`, `replace` cuts out exactly the first
    occurrence and puts `rep` in its place: the text before it and the whole
    text after it, later occurrences included, are kept.
  */
  lemma ReplaceFirstLiteral(s: string, pat: string, rep: string, i: nat)
    requires '$' !in rep
    requires IsFirstOccurrence(s, pat, i)
    ensures ReplaceFirst(s, pat, rep) == s[..i] + rep + s[i + |pat|..]
  {
    SubstitutionLiteral(rep, pat, s[..i], s[i + |pat|..]);
  }

  /** The text before the first occurrence of a non-empty pattern holds none. */
  lemma PrefixBeforeFirstOccurrence(s: string, pat: string, i: nat)
    requires |pat| > 0
    requires IsFirstOccurrence(s, pat, i)
    ensures Absent(s[..i], pat)
  {
    forall j: nat ensures !OccursAt(s[..i], pat, j) {
      if OccursAt(s[..i], pat, j) {
        assert s[..i][j..j + |pat|] == s[j..j + |pat|];
        assert OccursAt(s, pat, j);
        assert false;
      }
    }
  }

  /** Number of occurrences of the character `c` in `s`. */
  function Count(s: string, c: char): nat
  {
    if |s| == 0 then 0 else (if s[0] == c then 1 else 0) + Count(s[1..], c)
  }

  /**
    `s.split(sep)` for a one-character separator: the pieces between
    separators, so `n` separators give `n + 1` pieces and `""` gives `[""]`.
  */
  function Split(s: string, sep: char): (r: seq<string>)
    ensures |r| == Count(s, sep) + 1
    ensures forall k :: 0 <= k < |r| ==> sep !in r[k]
  {
    if |s| == 0 then [""]
    else if s[0] == sep then [""] + Split(s[1..], sep)
    else
      var rest := Split(s[1..], sep);
      [[s[0]] + rest[0]] + rest[1..]
  }

  /** `pieces.join(sep)`: the pieces with `sep` between neighbours. */
  function Join(pieces: seq<string>, sep: char): string
  {
    if |pieces| == 0 then ""
    else if |pieces| == 1 then pieces[0]
    else pieces[0] + [sep] + Join(pieces[1..], sep)
  }

  /** Joining the pieces of a split gives back the text. */
  lemma {:induction false} JoinSplit(s: string, sep: char)
    ensures Join(Split(s, sep), sep) == s
  {
    if |s| > 0 {
      JoinSplit(s[1..], sep);
      var rest := Split(s[1..], sep);
      if s[0] == sep {
        assert Split(s, sep) == [""] + rest;
        assert ([""] + rest)[1..] == rest;
      } else {
        assert Split(s, sep) == [[s[0]] + rest[0]] + rest[1..];
        if |rest| > 1 {
          assert ([[s[0]] + rest[0]] + rest[1..])[1..] == rest[1..];
        }
      }
    }
  }

  /** Splitting text that starts with a separator-free piece. */
  lemma {:induction false} SplitPrefix(a: string, t: string, sep: char)
    requires sep !in a
    ensures Split(a + t, sep) == [a + Split(t, sep)[0]] + Split(t, sep)[1..]
  {
    if |a| > 0 {
      SplitPrefix(a[1..], t, sep);
      assert (a + t)[1..] == a[1..] + t;
      assert (a + t)[0] == a[0];
      assert [a[0]] + (a[1..] + Split(t, sep)[0]) == a + Split(t, sep)[0];
    } else {
      var r := Split(t, sep);
      assert a + t == t;
      assert a + r[0] == r[0];
      assert [r[0]] + r[1..] == r;
    }
  }

  /** Splitting joined separator-free pieces gives back the pieces. */
  lemma {:induction false} SplitJoin(pieces: seq<string>, sep: char)
    requires |pieces| > 0
    requires forall k :: 0 <= k < |pieces| ==> sep !in pieces[k]
    ensures Split(Join(pieces, sep), sep) == pieces
  {
    if |pieces| == 1 {
      SplitPrefix(pieces[0], "", sep);
      assert pieces[0] + "" == pieces[0];
    } else {
      var tail := Join(pieces[1..], sep);
      SplitJoin(pieces[1..], sep);
      SplitPrefix(pieces[0], [sep] + tail, sep);
      assert pieces[0] + [sep] + tail == pieces[0] + ([sep] + tail);
      assert ([sep] + tail)[1..] == tail;
      assert Split([sep] + tail, sep) == [""] + pieces[1..];
      assert pieces[0] + "" == pieces[0];
    }
  }
}
