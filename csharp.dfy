/**
  The pieces of the C# base library that the webhook controllers lean on,
  stated with the behaviour the controllers depend on: `String.Split(char)`
  (empty segments kept), `string.Join`, `string.IsNullOrWhiteSpace`,
  array indexing with its bounds check, and the exceptions that escape.
 */
module CSharp {

  /** A reference that may be null. */
  datatype Option<+T> = None | Some(value: T)

  /** The exceptions the modelled code can raise. */
  datatype Exception =
    | IndexOutOfRange          // an array index outside the array
    | NullReference            // a member accessed on null
    | DuplicateKey(key: string) // Dictionary.Add with a key already present
    | Translating              // the "Translating..." exception of ExtractMetadata
    | ApiFailure               // an exception raised inside a Forge SDK call

  /** How a C# call ends: with a value or with an exception. */
  datatype Outcome<+T> = Returns(value: T) | Throws(error: Exception)

  /** Number of occurrences of `c` in `s`. */
  function Count(s: string, c: char): (n: nat)
    ensures n == 0 <==> c !in s
    ensures n <= |s|
  {
    if s == [] then 0 else (if s[0] == c then 1 else 0) + Count(s[1..], c)
  }

  lemma {:induction false} CountAppend(a: string, b: string, c: char)
    ensures Count(a + b, c) == Count(a, c) + Count(b, c)
  {
    if a != [] {
      assert (a + b)[0] == a[0] && (a + b)[1..] == a[1..] + b;
      CountAppend(a[1..], b, c);
    } else {
      assert a + b == b;
    }
  }

  /**
    `s.Split(sep)`: the pieces of `s` between occurrences of `sep`, in order,
    keeping empty pieces. There is always at least one piece.
   */
  function Split(s: string, sep: char): (parts: seq<string>)
    ensures |parts| == Count(s, sep) + 1
    ensures forall i :: 0 <= i < |parts| ==> sep !in parts[i]
  {
    if s == [] then [""]
    else
      var rest := Split(s[1..], sep);
      if s[0] == sep then [""] + rest
      else [[s[0]] + rest[0]] + rest[1..]
  }

  /** `string.Join(sep, parts)`. */
  function Join(parts: seq<string>, sep: string): string
  {
    if |parts| == 0 then ""
    else if |parts| == 1 then parts[0]
    else parts[0] + sep + Join(parts[1..], sep)
  }

  /** Appending one more piece adds the separator and the piece. */
  lemma {:induction false} JoinSnoc(parts: seq<string>, w: string, sep: string)
    requires |parts| > 0
    ensures Join(parts + [w], sep) == Join(parts, sep) + sep + w
  {
    if |parts| > 1 {
      JoinSnoc(parts[1..], w, sep);
      assert (parts + [w])[1..] == parts[1..] + [w];
    }
  }

  /** Joining the pieces of a split with the separator gives back the string. */
  lemma {:induction false} SplitJoin(s: string, sep: char)
    ensures Join(Split(s, sep), [sep]) == s
  {
    if s != [] {
      var c, t := s[0], s[1..];
      assert s == [c] + t;
      SplitJoin(t, sep);
      SplitCons(c, t, sep);
      if c == sep {
        JoinCons("", Split(t, sep), [sep]);
      } else {
        JoinExtendFirst(c, Split(t, sep), [sep]);
      }
    }
  }

  /** Joining with one more piece in front. */
  lemma JoinCons(w: string, parts: seq<string>, sep: string)
    requires |parts| >= 1
    ensures Join([w] + parts, sep) == w + sep + Join(parts, sep)
  {
    assert ([w] + parts)[1..] == parts;
  }

  /** Joining with the first piece extended by a character in front. */
  lemma JoinExtendFirst(c: char, parts: seq<string>, sep: string)
    requires |parts| >= 1
    ensures Join([[c] + parts[0]] + parts[1..], sep) == [c] + Join(parts, sep)
  {
    if |parts| > 1 {
      JoinCons([c] + parts[0], parts[1..], sep);
      JoinCons(parts[0], parts[1..], sep);
      assert parts == [parts[0]] + parts[1..];
    }
  }

  /** Splitting a string without the separator gives the string itself. */
  lemma {:induction false} SplitWithoutSeparator(s: string, sep: char)
    requires sep !in s
    ensures Split(s, sep) == [s]
  {
    if s != [] {
      assert sep !in s[1..];
      SplitWithoutSeparator(s[1..], sep);
      assert s == [s[0]] + s[1..];
    }
  }

  /** A separator splits the string into the pieces on either side of it. */
  lemma {:induction false} SplitAppend(a: string, b: string, sep: char)
    ensures Split(a + [sep] + b, sep) == Split(a, sep) + Split(b, sep)
  {
    if a == [] {
      assert a + [sep] + b == [sep] + b;
      SplitCons(sep, b, sep);
    } else {
      var x := a[1..];
      assert a == [a[0]] + x;
      assert a + [sep] + b == [a[0]] + (x + [sep] + b);
      SplitAppend(x, b, sep);
      SplitCons(a[0], x, sep);
      SplitCons(a[0], x + [sep] + b, sep);
      SplitFrontPiece(a[0], Split(x, sep), Split(b, sep), sep);
    }
  }

  /** The pieces of a string with one more character in front. */
  lemma SplitCons(c: char, t: string, sep: char)
    ensures Split([c] + t, sep) ==
              if c == sep then [""] + Split(t, sep)
              else [[c] + Split(t, sep)[0]] + Split(t, sep)[1..]
  {
    assert ([c] + t)[1..] == t;
  }

  /** Extending the first piece commutes with appending more pieces. */
  lemma SplitFrontPiece(c: char, left: seq<string>, right: seq<string>, sep: char)
    requires |left| >= 1
    ensures (if c == sep then [""] + (left + right) else [[c] + (left + right)[0]] + (left + right)[1..])
            == (if c == sep then [""] + left else [[c] + left[0]] + left[1..]) + right
  {
    if c != sep {
      assert (left + right)[1..] == left[1..] + right;
    }
  }

  /** Splitting a join of separator-free pieces gives back the pieces. */
  lemma {:induction false} JoinSplit(parts: seq<string>, sep: char)
    requires |parts| > 0
    requires forall i :: 0 <= i < |parts| ==> sep !in parts[i]
    ensures Split(Join(parts, [sep]), sep) == parts
  {
    SplitWithoutSeparator(parts[0], sep);
    if |parts| > 1 {
      JoinSplit(parts[1..], sep);
      SplitAppend(parts[0], Join(parts[1..], [sep]), sep);
      assert parts == [parts[0]] + parts[1..];
    }
  }

  /** The element `a[i]`, or the IndexOutOfRangeException C# raises. */
  function ElementAt<T>(a: seq<T>, i: int): (r: Outcome<T>)
    ensures r.Returns? <==> 0 <= i < |a|
    ensures r.Returns? ==> r.value == a[i]
    ensures r.Throws? ==> r.error == IndexOutOfRange
  {
    if 0 <= i < |a| then Returns(a[i]) else Throws(IndexOutOfRange)
  }

  /** `Char.IsWhiteSpace`: the Unicode space separators, line and paragraph separators, and the control characters U+0009 to U+000D and U+0085. */
  predicate IsWhiteSpace(c: char)
  {
    var n := c as int;
    (0x09 <= n <= 0x0D) || n == 0x20 || n == 0x85 || n == 0xA0 || n == 0x1680
    || (0x2000 <= n <= 0x200A) || n == 0x2028 || n == 0x2029 || n == 0x202F
    || n == 0x205F || n == 0x3000
  }

  /** `string.IsNullOrWhiteSpace` on a non-null string: empty or all white space. */
  predicate IsNullOrWhiteSpace(s: string)
  {
    forall i :: 0 <= i < |s| ==> IsWhiteSpace(s[i])
  }

  predicate IsUpper(c: char)
  {
    'A' <= c <= 'Z'
  }

  function LowerChar(c: char): char
  {
    if IsUpper(c) then (c as int - 'A' as int + 'a' as int) as char else c
  }

  /** `s.ToLower()` on ASCII text: every letter A to Z replaced by its lower-case form. */
  function ToLower(s: string): (r: string)
    ensures |r| == |s|
    ensures forall i :: 0 <= i < |s| ==> r[i] == LowerChar(s[i])
  {
    if s == [] then [] else [LowerChar(s[0])] + ToLower(s[1..])
  }

  lemma {:induction false} ToLowerAppend(a: string, b: string)
    ensures ToLower(a + b) == ToLower(a) + ToLower(b)
  {
    if a == [] {
      assert a + b == b;
    } else {
      assert (a + b)[1..] == a[1..] + b;
      ToLowerAppend(a[1..], b);
    }
  }

  /** Two strings without upper-case letters concatenate to one without. */
  lemma NoUpperConcat(a: string, b: string)
    requires forall i :: 0 <= i < |a| ==> !IsUpper(a[i])
    requires forall i :: 0 <= i < |b| ==> !IsUpper(b[i])
    ensures forall i :: 0 <= i < |a + b| ==> !IsUpper((a + b)[i])
  {
    forall i | 0 <= i < |a + b|
      ensures !IsUpper((a + b)[i])
    {
      if i >= |a| {
        assert (a + b)[i] == b[i - |a|];
      }
    }
  }

  /** Lower-casing leaves no upper-case letter and keeps every '.' where it was. */
  lemma {:induction false} ToLowerShape(s: string)
    ensures forall i :: 0 <= i < |ToLower(s)| ==> !IsUpper(ToLower(s)[i])
    ensures Count(ToLower(s), '.') == Count(s, '.')
  {
    if s != [] {
      ToLowerShape(s[1..]);
      assert ToLower(s) == [LowerChar(s[0])] + ToLower(s[1..]);
      assert ToLower(s)[1..] == ToLower(s[1..]);
    }
  }
}
