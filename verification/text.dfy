/**
 * The string helpers the record parser and the table printer rely on:
 * Python's `str.split` / `str.join` on a one-character separator, the
 * ASCII part of `str.upper`, one-character `str.replace`, and `strfield`,
 * the pad-right helper of the report table.
 */
module Text {

  /** The field separator of the customer file. */
  const Tab: char := '\t'

  // ---------------------------------------------------------------------
  // split / join on a single separator character
  // ---------------------------------------------------------------------

  /**
   * `s.split(sep)`: the maximal separator-free pieces of `s`, in order.
   * Like Python, an empty string yields one empty field and every
   * separator yields one more field, even at either end.
   */
  function Split(s: string, sep: char): (fields: seq<string>)
    ensures |fields| >= 1
    ensures forall i :: 0 <= i < |fields| ==> sep !in fields[i]
  {
    if |s| == 0 then [""]
    else if s[0] == sep then [""] + Split(s[1..], sep)
    else
      var rest := Split(s[1..], sep);
      [[s[0]] + rest[0]] + rest[1..]
  }

  /** `sep.join(fields)`: the fields with one separator between neighbours. */
  function Join(fields: seq<string>, sep: char): string
  {
    if |fields| == 0 then ""
    else if |fields| == 1 then fields[0]
    else fields[0] + [sep] + Join(fields[1..], sep)
  }

  /** Joining the pieces of a split gives back the original string. */
  lemma {:induction false} JoinSplit(s: string, sep: char)
    ensures Join(Split(s, sep), sep) == s
  {
    if |s| == 0 {
    } else if s[0] == sep {
      JoinSplit(s[1..], sep);
      assert [sep] + s[1..] == s;
    } else {
      var rest := Split(s[1..], sep);
      JoinSplit(s[1..], sep);
      if |rest| == 1 {
        assert [s[0]] + s[1..] == s;
      } else {
        assert Join(rest, sep) == rest[0] + [sep] + Join(rest[1..], sep);
        assert [s[0]] + s[1..] == s;
      }
    }
  }

  /** A separator-free prefix glues onto the first field of what follows. */
  lemma {:induction false} SplitLeading(a: string, t: string, sep: char)
    requires sep !in a
    ensures Split(a + t, sep) == [a + Split(t, sep)[0]] + Split(t, sep)[1..]
  {
    if |a| == 0 {
      var f := Split(t, sep);
      assert a + t == t && a + f[0] == f[0];
      assert [f[0]] + f[1..] == f;
    } else {
      assert (a + t)[0] == a[0];
      assert (a + t)[1..] == a[1..] + t;
      SplitLeading(a[1..], t, sep);
      assert [a[0]] + (a[1..] + Split(t, sep)[0]) == a + Split(t, sep)[0];
    }
  }

  /**
   * Splitting a join gives back the fields, provided none of them contains
   * the separator: the fields of a record survive a write/read round trip.
   */
  lemma {:induction false} SplitJoin(fields: seq<string>, sep: char)
    requires |fields| >= 1
    requires forall i :: 0 <= i < |fields| ==> sep !in fields[i]
    ensures Split(Join(fields, sep), sep) == fields
  {
    if |fields| == 1 {
      SplitLeading(fields[0], "", sep);
      assert fields[0] + "" == fields[0];
    } else {
      var tail := [sep] + Join(fields[1..], sep);
      assert Join(fields, sep) == fields[0] + tail;
      SplitLeading(fields[0], tail, sep);
      assert tail[0] == sep && tail[1..] == Join(fields[1..], sep);
      SplitJoin(fields[1..], sep);
      assert Split(tail, sep) == [""] + fields[1..];
      assert fields[0] + "" == fields[0];
      assert [fields[0]] + fields[1..] == fields;
    }
  }

  // ---------------------------------------------------------------------
  // upper / replace
  // ---------------------------------------------------------------------

  predicate IsLowerAscii(c: char) {
    'a' <= c <= 'z'
  }

  /** A string with no ASCII lower-case letter. */
  predicate IsUpper(s: string) {
    forall i :: 0 <= i < |s| ==> !IsLowerAscii(s[i])
  }

  function UpperChar(c: char): (u: char)
    ensures !IsLowerAscii(u)
    ensures IsLowerAscii(c) ==> u as int == c as int - 32
    ensures !IsLowerAscii(c) ==> u == c
  {
    if IsLowerAscii(c) then (c as int - 32) as char else c
  }

  /** `s.upper()` restricted to the ASCII letters. */
  function Upper(s: string): (r: string)
    ensures |r| == |s|
    ensures IsUpper(r)
    ensures forall i :: 0 <= i < |s| && IsLowerAscii(s[i]) ==> r[i] as int == s[i] as int - 32
    ensures forall i :: 0 <= i < |s| && !IsLowerAscii(s[i]) ==> r[i] == s[i]
    ensures IsUpper(s) ==> r == s
  {
    seq(|s|, i requires 0 <= i < |s| => UpperChar(s[i]))
  }

  /**
   * `k` spells `name` with any of its letters possibly in lower case: each
   * character is the name's own, or a lower-case letter 32 code points
   * above it.
   */
  predicate CaseVariant(k: string, name: string) {
    && |k| == |name|
    && forall i :: 0 <= i < |k| ==>
         k[i] == name[i] || (IsLowerAscii(k[i]) && k[i] as int - 32 == name[i] as int)
  }

  /** Upper-casing any spelling of an upper-case name gives the name. */
  lemma {:induction false} UpperCaseVariant(k: string, name: string)
    requires IsUpper(name) && CaseVariant(k, name)
    ensures Upper(k) == name
  {
    var u := Upper(k);
    forall i | 0 <= i < |k| ensures u[i] == name[i] {
      if IsLowerAscii(k[i]) {
        assert k[i] != name[i];
      }
    }
  }

  /** `s.replace(from, to)` for one-character `from` and `to`. */
  function ReplaceChar(s: string, from: char, to: char): (r: string)
    ensures |r| == |s|
    ensures from != to ==> from !in r
    ensures forall i :: 0 <= i < |s| && s[i] != from ==> r[i] == s[i]
    ensures forall i :: 0 <= i < |s| && s[i] == from ==> r[i] == to
  {
    seq(|s|, i requires 0 <= i < |s| => if s[i] == from then to else s[i])
  }

  /** Upper-casing does not disturb a replacement of non-letters. */
  lemma UpperReplaceStaysUpper(s: string)
    ensures IsUpper(ReplaceChar(Upper(s), ' ', '_'))
  {
  }

  // ---------------------------------------------------------------------
  // strfield
  // ---------------------------------------------------------------------

  /**
   * Python's `s * k`: `k` copies of `s`, none when `k <= 0`. The result
   * starts with `s` and repeats with period `|s|`, so it is whole copies of
   * `s` in order.
   */
  function Repeat(s: string, k: int): (r: string)
    ensures |r| == if k <= 0 then 0 else |s| * k
    ensures forall i :: 0 <= i < |r| ==> r[i] in s
    ensures forall i :: 0 <= i < |r| && i < |s| ==> r[i] == s[i]
    ensures forall i :: |s| <= i < |r| ==> r[i] == r[i - |s|]
    decreases k
  {
    if k <= 0 then "" else s + Repeat(s, k - 1)
  }

  function Max(a: int, b: int): int {
    if a >= b then a else b
  }

  /**
   * `strfield(data, length, space)`: `data` padded on the right with copies
   * of `space` up to `length` characters; `data` is never cut short.
   */
  function StrField(data: string, length: int, space: string): (r: string)
    ensures |data| <= |r|
    ensures r[..|data|] == data
    ensures |r| == |data| + |space| * Max(length - |data|, 0)
    ensures forall i :: |data| <= i < |r| ==> r[i] in space
    ensures forall i :: |data| <= i < |r| && i - |data| < |space| ==> r[i] == space[i - |data|]
    ensures forall i :: |data| + |space| <= i < |r| ==> r[i] == r[i - |space|]
  {
    data + Repeat(space, length - |data|)
  }

  /**
   * With the default one-character pad the field is exactly
   * `max(length, |data|)` wide, consists of `data` followed only by the pad
   * character, and leaves a string that is already wide enough alone.
   */
  lemma StrFieldWidth(data: string, length: int, pad: char)
    ensures |StrField(data, length, [pad])| == Max(length, |data|)
    ensures forall i :: |data| <= i < |StrField(data, length, [pad])| ==> StrField(data, length, [pad])[i] == pad
    ensures |data| >= length ==> StrField(data, length, [pad]) == data
  {
  }
}
