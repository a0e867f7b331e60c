/**
 * Requirements-line parsing for the package manifest: lines are stripped,
 * blank ones dropped, and the first editable-install line removed.
 */
module Setup {
  import opened Seqs

  /** The line that installs the package itself in editable mode. */
  const EditableInstall: string := "-e ."

  /** The characters Python's `str.strip()` removes when given no argument. */
  predicate IsSpace(c: char) {
    || ('\t' <= c <= '\r')
    || ('\U{1C}' <= c <= ' ')
    || c == '\U{85}' || c == '\U{A0}' || c == '\U{1680}'
    || ('\U{2000}' <= c <= '\U{200A}')
    || c == '\U{2028}' || c == '\U{2029}' || c == '\U{202F}' || c == '\U{205F}' || c == '\U{3000}'
  }

  /** The number of whitespace characters `s` starts with. */
  function LeadingSpaces(s: string): (n: nat)
    ensures n <= |s|
    ensures forall i :: 0 <= i < n ==> IsSpace(s[i])
    ensures n < |s| ==> !IsSpace(s[n])
  {
    if |s| > 0 && IsSpace(s[0]) then 1 + LeadingSpaces(s[1..]) else 0
  }

  /** The number of whitespace characters `s` ends with. */
  function TrailingSpaces(s: string): (n: nat)
    ensures n <= |s|
    ensures forall i :: |s| - n <= i < |s| ==> IsSpace(s[i])
    ensures n < |s| ==> !IsSpace(s[|s| - n - 1])
  {
    if |s| > 0 && IsSpace(s[|s| - 1]) then 1 + TrailingSpaces(s[..|s| - 1]) else 0
  }

  /**
   * `str.strip()`: the stretch of `s` after its leading whitespace that
   * leaves only whitespace behind it, and that neither starts nor ends
   * with whitespace.
   */
  function Strip(s: string): (r: string)
    ensures LeadingSpaces(s) + |r| <= |s|
    ensures r == s[LeadingSpaces(s)..LeadingSpaces(s) + |r|]
    ensures forall i :: LeadingSpaces(s) + |r| <= i < |s| ==> IsSpace(s[i])
    ensures |r| > 0 ==> !IsSpace(r[0]) && !IsSpace(r[|r| - 1])
  {
    var rest := s[LeadingSpaces(s)..];
    rest[..|rest| - TrailingSpaces(rest)]
  }

  /** Stripping twice is stripping once. */
  lemma StripIdempotent(s: string)
    ensures Strip(Strip(s)) == Strip(s)
  {
    var r := Strip(s);
    assert LeadingSpaces(r) == 0;
    assert TrailingSpaces(r) == 0;
  }

  /** A line strips to the empty string exactly when it is all whitespace. */
  lemma StripEmptyIffBlank(s: string)
    ensures Strip(s) == "" <==> forall i :: 0 <= i < |s| ==> IsSpace(s[i])
  {
  }

  function NonEmpty(s: string): bool {
    s != ""
  }

  /** Every line stripped, in order. */
  function Stripped(lines: seq<string>): seq<string> {
    seq(|lines|, i requires 0 <= i < |lines| => Strip(lines[i]))
  }

  /** `[req.strip() for req in requirements if req.strip()]`. */
  function Cleaned(lines: seq<string>): (r: seq<string>)
    ensures |r| <= |lines|
    ensures forall i :: 0 <= i < |r| ==> r[i] != ""
  {
    FilterMembers(Stripped(lines), NonEmpty);
    assert forall i :: 0 <= i < |Filter(Stripped(lines), NonEmpty)| ==> NonEmpty(Filter(Stripped(lines), NonEmpty)[i]);
    Filter(Stripped(lines), NonEmpty)
  }

  /** Every cleaned line is an input line stripped, and is neither empty nor padded. */
  lemma CleanedLinesAreStripped(lines: seq<string>)
    ensures forall x :: x in Cleaned(lines) ==> x != "" && Strip(x) == x && exists i :: 0 <= i < |lines| && Strip(lines[i]) == x
  {
    var stripped := Stripped(lines);
    FilterMembers(stripped, NonEmpty);
    forall x | x in Cleaned(lines)
      ensures x != "" && Strip(x) == x && exists i :: 0 <= i < |lines| && Strip(lines[i]) == x
    {
      var i :| 0 <= i < |stripped| && stripped[i] == x;
      StripIdempotent(lines[i]);
    }
  }

  /**
   * The cleaned lines keep their input order: they are the stripped input
   * lines at strictly increasing positions, and every input line that is
   * not blank is among them.
   */
  lemma CleanedKeepsOrder(lines: seq<string>)
    ensures var c := Cleaned(lines);
      var stripped := Stripped(lines);
      exists ix: seq<nat> ::
        && |ix| == |c|
        && (forall k :: 0 <= k < |ix| ==> ix[k] < |stripped| && stripped[ix[k]] == c[k])
        && (forall k, m :: 0 <= k < m < |ix| ==> ix[k] < ix[m])
        && (forall j :: 0 <= j < |stripped| && stripped[j] != "" ==> j in ix)
  {
    var stripped := Stripped(lines);
    var c := Cleaned(lines);
    var ix := Kept(stripped, NonEmpty);
    assert c == Filter(stripped, NonEmpty) && |ix| == |c|;
    assert forall k :: 0 <= k < |ix| ==> ix[k] < |stripped| && stripped[ix[k]] == c[k];
    assert forall k, m :: 0 <= k < m < |ix| ==> ix[k] < ix[m];
    assert forall j :: 0 <= j < |stripped| && stripped[j] != "" ==> NonEmpty(stripped[j]);
  }

  /** The position of the first occurrence of `x` in `s`. */
  function IndexOf(s: seq<string>, x: string): (i: nat)
    requires x in s
    ensures i < |s| && s[i] == x && x !in s[..i]
  {
    if s[0] == x then 0
    else
      assert x in s[1..];
      var j := IndexOf(s[1..], x);
      assert s[..j + 1] == [s[0]] + s[1..][..j];
      j + 1
  }

  /**
   * `get_requirements` over the lines of the file: the comprehension,
   * then `requirements.remove("-e .")`, which drops the first occurrence
   * only.
   */
  method GetRequirements(lines: seq<string>) returns (requirements: seq<string>)
    ensures EditableInstall !in Cleaned(lines) ==> requirements == Cleaned(lines)
    ensures EditableInstall in Cleaned(lines) ==>
      var c := Cleaned(lines);
      exists i :: (0 <= i < |c| && c[i] == EditableInstall && EditableInstall !in c[..i]
        && requirements == c[..i] + c[i + 1..])
  {
    requirements := Cleaned(lines);
    if EditableInstall in requirements {
      var c := requirements;
      var i := IndexOf(c, EditableInstall);
      requirements := c[..i] + c[i + 1..];
      assert 0 <= i < |c| && c[i] == EditableInstall && EditableInstall !in c[..i] && requirements == c[..i] + c[i + 1..];
    }
  }

  /**
   * Removing the first editable-install line of the cleaned lines `c`
   * leaves any later duplicates in place.
   */
  lemma LaterDuplicatesRemain(c: seq<string>, requirements: seq<string>)
    requires exists i :: (0 <= i < |c| && c[i] == EditableInstall && EditableInstall !in c[..i]
      && requirements == c[..i] + c[i + 1..])
    ensures multiset(requirements)[EditableInstall] == multiset(c)[EditableInstall] - 1
    ensures forall x :: x != EditableInstall ==> multiset(requirements)[x] == multiset(c)[x]
  {
    var i :| 0 <= i < |c| && c[i] == EditableInstall && EditableInstall !in c[..i] && requirements == c[..i] + c[i + 1..];
    assert c == c[..i] + [c[i]] + c[i + 1..];
    assert multiset(c) == multiset(c[..i]) + multiset{EditableInstall} + multiset(c[i + 1..]);
    assert multiset(requirements) == multiset(c[..i]) + multiset(c[i + 1..]);
  }
}
