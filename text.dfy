/** The few JavaScript string operations the Gruntfile relies on, with the
    semantics of String.prototype for the arguments it passes them. */
module Text {

  datatype Option<T> = None | Some(value: T)

  /** Index of the first `c` in `s` (indexOf with a one-character argument). */
  function IndexOf(s: string, c: char): (r: Option<nat>)
    ensures r.None? <==> c !in s
    ensures r.Some? ==> r.value < |s| && s[r.value] == c && c !in s[..r.value]
  {
    if |s| == 0 then None
    else if s[0] == c then Some(0)
    else match IndexOf(s[1..], c)
      case None => None
      case Some(i) =>
        assert s[..i + 1] == [s[0]] + s[1..][..i];
        Some(i + 1)
  }

  /** `s.split(sep)` for a one-character separator: the pieces between
      separators, from left to right; never empty, "" gives [""]. */
  function Split(s: string, sep: char): (parts: seq<string>)
    ensures |parts| >= 1
    ensures forall k :: 0 <= k < |parts| ==> sep !in parts[k]
    decreases |s|
  {
    match IndexOf(s, sep)
    case None => [s]
    case Some(i) => [s[..i]] + Split(s[i + 1..], sep)
  }

  /** `parts.join(sep)`: the inverse of Split. */
  function Join(parts: seq<string>, sep: char): string
    requires |parts| >= 1
  {
    if |parts| == 1 then parts[0] else parts[0] + [sep] + Join(parts[1..], sep)
  }

  /** Splitting loses nothing: joining the pieces back gives the input. */
  lemma {:induction false} SplitJoin(s: string, sep: char)
    ensures Join(Split(s, sep), sep) == s
    decreases |s|
  {
    match IndexOf(s, sep)
    case None =>
    case Some(i) =>
      var rest := Split(s[i + 1..], sep);
      var parts := [s[..i]] + rest;
      assert Split(s, sep) == parts;
      assert parts[1..] == rest;
      calc {
        Join(parts, sep);
        s[..i] + [sep] + Join(rest, sep);
        { SplitJoin(s[i + 1..], sep); }
        s[..i] + [sep] + s[i + 1..];
        { assert s[i] == sep; }
        s;
      }
  }

  /** The first piece of a split is the text before the first separator,
      or the whole text when there is none. */
  lemma SplitHead(s: string, sep: char)
    ensures sep !in s ==> Split(s, sep) == [s]
    ensures sep in s ==> exists i :: 0 <= i < |s| && s[i] == sep && Split(s, sep)[0] == s[..i] && sep !in s[..i]
  {
    if sep in s {
      var i := IndexOf(s, sep).value;
      assert s[i] == sep && Split(s, sep)[0] == s[..i] && sep !in s[..i];
    }
  }

  /** `pat` occurs in `s` starting at index `i`. */
  predicate OccursAt(s: string, pat: string, i: nat)
  {
    i + |pat| <= |s| && s[i..i + |pat|] == pat
  }

  /** Leftmost occurrence of `pat` in `s` at or after `i` (indexOf with a
      string argument and a start position). */
  function FindFrom(s: string, pat: string, i: nat): (r: Option<nat>)
    ensures r.Some? ==> i <= r.value && OccursAt(s, pat, r.value)
    ensures r.Some? ==> forall j :: i <= j < r.value ==> !OccursAt(s, pat, j)
    ensures r.None? ==> forall j :: i <= j ==> !OccursAt(s, pat, j)
    decreases |s| - i
  {
    if i + |pat| > |s| then None
    else if s[i..i + |pat|] == pat then Some(i)
    else FindFrom(s, pat, i + 1)
  }

  /** `s.replace(pat, rep)` with a string pattern: only the leftmost
      occurrence is replaced; without one, `s` comes back unchanged. The
      `$` patterns JavaScript expands in `rep` are not interpreted. */
  function ReplaceFirst(s: string, pat: string, rep: string): (r: string)
    ensures pat <= s ==> r == rep + s[|pat|..]
    ensures (forall j :: !OccursAt(s, pat, j)) ==> r == s
    ensures forall k: nat :: OccursAt(s, pat, k) && (forall j: nat :: j < k ==> !OccursAt(s, pat, j)) ==>
              r == s[..k] + rep + s[k + |pat|..]
  {
    match FindFrom(s, pat, 0)
    case None => s
    case Some(k) =>
      assert pat <= s ==> OccursAt(s, pat, 0) && k == 0;
      s[..k] + rep + s[k + |pat|..]
  }

  /** `s.replace(/\\/gi, '/')`: every backslash becomes a forward slash. */
  function Slashed(s: string): (r: string)
    ensures |r| == |s|
    ensures forall k :: 0 <= k < |s| ==> r[k] == if s[k] == '\\' then '/' else s[k]
    ensures '\\' !in r
  {
    if s == [] then []
    else [if s[0] == '\\' then '/' else s[0]] + Slashed(s[1..])
  }

  /** A text without backslashes is left as it is. */
  lemma SlashedWithoutBackslash(s: string)
    requires '\\' !in s
    ensures Slashed(s) == s
  {
  }

  /** The regular expression test `/\.css$/`-style suffix match. */
  predicate EndsWith(s: string, suffix: string)
  {
    |suffix| <= |s| && s[|s| - |suffix|..] == suffix
  }
}
