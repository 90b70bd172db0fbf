/**
 * Character and string helpers of the Kotlin/Java standard library used by the core:
 * Character.isUpperCase / toLowerCase, String.lowercase, isBlank, startsWith and split.
 * Characters are modelled on ASCII; see README.
 */
module Text {

  predicate IsUpper(c: char) { 'A' <= c <= 'Z' }

  predicate IsLower(c: char) { 'a' <= c <= 'z' }

  function ToLower(c: char): (r: char)
    ensures !IsUpper(r)
    ensures IsUpper(c) ==> IsLower(r) && r != c
    ensures !IsUpper(c) ==> r == c
  {
    if IsUpper(c) then (c as int + 32) as char else c
  }

  /** String.lowercase(): every character lower-cased, length kept. */
  function Lowercase(s: string): (r: string)
    ensures |r| == |s|
    ensures forall i :: 0 <= i < |s| ==> r[i] == ToLower(s[i])
  {
    seq(|s|, i requires 0 <= i < |s| => ToLower(s[i]))
  }

  predicate NoUpper(s: string) { forall i :: 0 <= i < |s| ==> !IsUpper(s[i]) }

  /** Character.isWhitespace on the ASCII range. */
  predicate IsWhitespace(c: char) {
    c == ' ' || c == '\t' || c == '\n' || c == '\r' || c == '\U{000B}' || c == '\U{000C}'
    || ('\U{001C}' <= c <= '\U{001F}')
  }

  /** CharSequence.isBlank(): empty or whitespace only. */
  predicate IsBlank(s: string) { forall i :: 0 <= i < |s| ==> IsWhitespace(s[i]) }

  predicate StartsWith(s: string, prefix: string) { |prefix| <= |s| && s[..|prefix|] == prefix }

  /** No string occurs twice. */
  predicate Distinct(xs: seq<string>) {
    forall i, j :: 0 <= i < j < |xs| ==> xs[i] != xs[j]
  }

  /** Appending keeps a sequence distinct exactly when the new string is not in it yet. */
  lemma DistinctAppend(xs: seq<string>, a: string)
    ensures Distinct(xs + [a]) <==> Distinct(xs) && a !in xs
  {
    var ys := xs + [a];
    if Distinct(ys) {
      assert forall i, j :: 0 <= i < j < |xs| ==> xs[i] == ys[i] && xs[j] == ys[j];
      forall i | 0 <= i < |xs|
        ensures xs[i] != a
      {
        assert ys[i] == xs[i] && ys[|xs|] == a;
      }
    }
    if Distinct(xs) && a !in xs {
      forall i, j | 0 <= i < j < |ys|
        ensures ys[i] != ys[j]
      {
        if j < |xs| {
          assert ys[i] == xs[i] && ys[j] == xs[j];
        } else {
          assert ys[i] == xs[i];
        }
      }
    }
  }

  /** Kotlin's `s.split(sep.toString())`: split at every separator, keeping empty parts. */
  function Split(s: string, sep: char): (parts: seq<string>)
    ensures |parts| >= 1
    decreases |s|
  {
    if |s| == 0 then [""]
    else if s[0] == sep then [""] + Split(s[1..], sep)
    else
      var rest := Split(s[1..], sep);
      [[s[0]] + rest[0]] + rest[1..]
  }

  /** The inverse of Split: glue the parts back with the separator. */
  function Join(parts: seq<string>, sep: char): string
    requires |parts| >= 1
  {
    if |parts| == 1 then parts[0] else parts[0] + [sep] + Join(parts[1..], sep)
  }

  /** Splitting loses nothing: joining the parts gives the input back. */
  lemma {:induction false} JoinSplit(s: string, sep: char)
    ensures Join(Split(s, sep), sep) == s
    decreases |s|
  {
    if |s| > 0 {
      var c, t := s[0], s[1..];
      assert s == [c] + t;
      SplitCons(c, t, sep);
      JoinSplit(t, sep);
      var parts := Split(t, sep);
      if c == sep {
        JoinCons("", parts, sep);
        assert "" + [sep] + t == s;
      } else if |parts| == 1 {
        assert Join([[c] + parts[0]], sep) == [c] + parts[0];
      } else {
        var h := [c] + parts[0];
        JoinCons(h, parts[1..], sep);
        assert parts == [parts[0]] + parts[1..];
        JoinCons(parts[0], parts[1..], sep);
        assert h + [sep] + Join(parts[1..], sep) == [c] + (parts[0] + [sep] + Join(parts[1..], sep));
      }
    }
  }

  /** No part contains the separator. */
  lemma {:induction false} SplitPartsFree(s: string, sep: char)
    ensures forall k :: 0 <= k < |Split(s, sep)| ==> sep !in Split(s, sep)[k]
    decreases |s|
  {
    if |s| > 0 {
      SplitPartsFree(s[1..], sep);
    }
  }

  /** A string without the separator is one part. */
  lemma {:induction false} SplitNoSep(s: string, sep: char)
    requires sep !in s
    ensures Split(s, sep) == [s]
    decreases |s|
  {
    if |s| > 0 {
      SplitNoSep(s[1..], sep);
      assert s == [s[0]] + s[1..];
    }
  }

  /** Splitting at a separator distributes over the two sides. */
  lemma {:induction false} SplitAround(a: string, b: string, sep: char)
    ensures Split(a + [sep] + b, sep) == Split(a, sep) + Split(b, sep)
    decreases |a|
  {
    if |a| == 0 {
      assert a + [sep] + b == [sep] + b;
      SplitCons(sep, b, sep);
    } else {
      var c, s' := a[0], a[1..] + [sep] + b;
      assert a + [sep] + b == [c] + s';
      assert a == [c] + a[1..];
      SplitCons(c, s', sep);
      SplitCons(c, a[1..], sep);
      SplitAround(a[1..], b, sep);
      var left, right := Split(a[1..], sep), Split(b, sep);
      var rest := Split(s', sep);
      if c == sep {
        calc {
          Split(a + [sep] + b, sep);
          [""] + rest;
          [""] + (left + right);
          { ConsAppend("", left, right); }
          ([""] + left) + right;
        }
      } else {
        var h := [c] + left[0];
        assert rest[0] == left[0] && rest[1..] == left[1..] + right;
        calc {
          Split(a + [sep] + b, sep);
          [[c] + rest[0]] + rest[1..];
          [h] + (left[1..] + right);
          { ConsAppend(h, left[1..], right); }
          ([h] + left[1..]) + right;
        }
      }
    }
  }

  /** Concatenation of sequences is associative. */
  lemma AppendAssoc<T>(a: seq<T>, b: seq<T>, c: seq<T>)
    ensures a + (b + c) == (a + b) + c
  {
  }

  lemma ConsAppend(h: string, l: seq<string>, r: seq<string>)
    ensures [h] + (l + r) == ([h] + l) + r
  {
  }

  /** One step of Split on a string given as its first character and the rest. */
  lemma SplitCons(c: char, t: string, sep: char)
    ensures Split([c] + t, sep) ==
      if c == sep then [""] + Split(t, sep) else [[c] + Split(t, sep)[0]] + Split(t, sep)[1..]
  {
    assert ([c] + t)[0] == c && ([c] + t)[1..] == t;
  }

  /** Joining separator-free parts and splitting again gives the parts back. */
  lemma {:induction false} SplitJoin(parts: seq<string>, sep: char)
    requires |parts| >= 1
    requires forall k :: 0 <= k < |parts| ==> sep !in parts[k]
    ensures Split(Join(parts, sep), sep) == parts
    decreases |parts|
  {
    SplitNoSep(parts[0], sep);
    if |parts| > 1 {
      SplitJoin(parts[1..], sep);
      SplitAround(parts[0], Join(parts[1..], sep), sep);
      assert parts == [parts[0]] + parts[1..];
    }
  }

  /** Lower-casing never produces a character that is neither a lower-case letter nor in the input. */
  lemma LowercaseAvoids(s: string, x: char)
    requires x !in s && !IsLower(x)
    ensures x !in Lowercase(s)
  {
    forall i | 0 <= i < |s|
      ensures Lowercase(s)[i] != x
    {
      assert s[i] in s;
    }
  }

  /** A string without upper-case letters is its own lower-case form. */
  lemma LowercaseFixed(s: string)
    requires NoUpper(s)
    ensures Lowercase(s) == s
  {
  }

  /** Join peels off its first part. */
  lemma JoinCons(first: string, rest: seq<string>, sep: char)
    requires |rest| >= 1
    ensures Join([first] + rest, sep) == first + [sep] + Join(rest, sep)
  {
    assert ([first] + rest)[1..] == rest;
  }
}
