/**
 * `String.underlineName()` of vertx-common-core-kt: camelCase to snake_case.
 * A StringBuilder receives, for every character, "_" and the lower-cased letter when
 * it is upper-case and the character itself otherwise; afterwards one leading '_' is
 * deleted. `sb[0]` on an empty builder throws, so the input must not be empty.
 */
module StrUtil {
  import opened Text
  import opened Wrappers

  /** What the loop appends for one character. */
  function Piece(c: char): string {
    if IsUpper(c) then ['_', ToLower(c)] else [c]
  }

  function CountUpper(s: string): nat {
    if s == [] then 0 else CountUpper(s[..|s| - 1]) + (if IsUpper(s[|s| - 1]) then 1 else 0)
  }

  /** The builder's contents after the loop over `s`. */
  function Snake(s: string): (b: string)
    ensures |b| == |s| + CountUpper(s)
  {
    if s == [] then [] else Snake(s[..|s| - 1]) + Piece(s[|s| - 1])
  }

  /** The extension function's result; defined only for a non-empty receiver. */
  function UnderlineName(s: string): (r: string)
    requires |s| > 0
  {
    var b := Snake(s);
    if b[0] == '_' then b[1..] else b
  }

  /** underlineName with its StringIndexOutOfBoundsException as None. */
  function TryUnderlineName(s: string): (r: Option<string>)
    ensures r.None? <==> s == []
  {
    if s == [] then None else Some(UnderlineName(s))
  }

  /** The extension function as written: a builder loop, then an in-place delete of index 0. */
  method UnderlineNameBuilder(name: string) returns (r: string)
    requires |name| > 0
    ensures r == UnderlineName(name)
  {
    var sb: string := [];
    for i := 0 to |name|
      invariant sb == Snake(name[..i])
    {
      var c := name[i];
      assert name[..i + 1][..i] == name[..i];
      if IsUpper(c) {
        sb := sb + ['_'];
        sb := sb + [ToLower(c)];
      } else {
        sb := sb + [c];
      }
    }
    assert name[..|name|] == name;
    if sb[0] == '_' {
      sb := sb[1..];
    }
    r := sb;
  }

  /** The builder is a homomorphism: each character is translated on its own, in order. */
  lemma {:induction false} SnakeConcat(a: string, b: string)
    ensures Snake(a + b) == Snake(a) + Snake(b)
    decreases |b|
  {
    if b == [] {
      assert a + b == a;
    } else {
      var b' := b[..|b| - 1];
      assert (a + b)[..|a + b| - 1] == a + b';
      assert (a + b)[|a + b| - 1] == b[|b| - 1];
      SnakeConcat(a, b');
    }
  }

  lemma SnakeOne(c: char)
    ensures Snake([c]) == Piece(c)
  {
    assert [c][..0] == [];
  }

  /** The first character of the builder is '_' exactly when the input starts with '_' or an upper-case letter. */
  lemma SnakeHead(s: string)
    requires |s| > 0
    ensures |Snake(s)| > 0
    ensures Snake(s)[0] == '_' <==> (s[0] == '_' || IsUpper(s[0]))
  {
    assert s == [s[0]] + s[1..];
    SnakeConcat([s[0]], s[1..]);
    SnakeOne(s[0]);
  }

  /** The builder never holds an upper-case letter. */
  lemma {:induction false} SnakeNoUpper(s: string)
    ensures NoUpper(Snake(s))
    decreases |s|
  {
    if s != [] {
      SnakeNoUpper(s[..|s| - 1]);
    }
  }

  /** A string without upper-case letters passes through the builder unchanged. */
  lemma {:induction false} SnakeFixed(s: string)
    requires NoUpper(s)
    ensures Snake(s) == s
    decreases |s|
  {
    if s != [] {
      SnakeFixed(s[..|s| - 1]);
      assert s == s[..|s| - 1] + [s[|s| - 1]];
    }
  }

  /** The result has no upper-case letter. */
  lemma UnderlineNoUpper(s: string)
    requires |s| > 0
    ensures NoUpper(UnderlineName(s))
  {
    SnakeNoUpper(s);
  }

  /** |result| = |input| + number of upper-case letters - (1 if the built string started with '_'). */
  lemma UnderlineLength(s: string)
    requires |s| > 0
    ensures |UnderlineName(s)| == |s| + CountUpper(s) - (if s[0] == '_' || IsUpper(s[0]) then 1 else 0)
  {
    SnakeHead(s);
  }

  /** An all-lower-case input that does not start with '_' is returned unchanged. */
  lemma UnderlineFixed(s: string)
    requires |s| > 0 && NoUpper(s) && s[0] != '_'
    ensures UnderlineName(s) == s
  {
    SnakeFixed(s);
  }

  /** A second application changes nothing when the first result is non-empty and does not start with '_'. */
  lemma UnderlineTwice(s: string)
    requires |s| > 0
    requires |UnderlineName(s)| > 0 && UnderlineName(s)[0] != '_'
    ensures UnderlineName(UnderlineName(s)) == UnderlineName(s)
  {
    UnderlineNoUpper(s);
    UnderlineFixed(UnderlineName(s));
  }

  /** Not idempotent in general: each application drops one of two leading '_' ("__a", "_a", "a"). */
  lemma UnderlineNotIdempotent(s: string)
    requires |s| >= 2 && NoUpper(s) && s[0] == '_' && s[1] == '_'
    ensures UnderlineName(s) == s[1..]
    ensures UnderlineName(UnderlineName(s)) == s[2..] != UnderlineName(s)
  {
    SnakeFixed(s);
    var t := s[1..];
    assert NoUpper(t) by {
      forall i | 0 <= i < |t| ensures !IsUpper(t[i]) { assert t[i] == s[i + 1]; }
    }
    SnakeFixed(t);
    assert t[1..] == s[2..];
    assert |s[2..]| != |t|;
  }

  /** The builder only adds '_' and lower-case letters: any other character is absent unless it was there. */
  lemma {:induction false} SnakeAvoids(s: string, x: char)
    requires x !in s && x != '_' && !IsLower(x)
    ensures x !in Snake(s)
    decreases |s|
  {
    if s != [] {
      assert s[|s| - 1] in s;
      assert forall k :: 0 <= k < |s| - 1 ==> s[..|s| - 1][k] == s[k];
      SnakeAvoids(s[..|s| - 1], x);
    }
  }

  /** underlineName never introduces a separator such as '.'. */
  lemma UnderlineAvoids(s: string, x: char)
    requires |s| > 0 && x !in s && x != '_' && !IsLower(x)
    ensures x !in UnderlineName(s)
  {
    SnakeAvoids(s, x);
  }

  /** One character between two upper-case-free strings is the only one translated. */
  lemma SnakeMiddle(a: string, d: char, b: string)
    requires NoUpper(a) && NoUpper(b)
    ensures Snake(a + [d] + b) == a + Piece(d) + b
  {
    SnakeConcat(a + [d], b);
    SnakeConcat(a, [d]);
    SnakeOne(d);
    SnakeFixed(a);
    SnakeFixed(b);
  }

  /** A lower-case word followed by a capitalised word: "createTime" becomes "create_time". */
  lemma UnderlineCamel(a: string, c: char, b: string)
    requires |a| > 0 && NoUpper(a) && a[0] != '_'
    requires IsUpper(c) && NoUpper(b)
    ensures UnderlineName(a + [c] + b) == a + ['_', ToLower(c)] + b
  {
    SnakeMiddle(a, c, b);
    assert (a + [c] + b)[0] == a[0];
  }

  /** A builder that starts with '_' loses exactly that character. */
  lemma UnderlineDropsMark(s: string, t: string)
    requires |s| > 0 && Snake(s) == ['_'] + t
    ensures UnderlineName(s) == t
  {
    assert Snake(s)[1..] == t;
  }

  /** A leading capital loses its '_' mark and is lower-cased: "User..." becomes "user...". */
  lemma UnderlineCapitalStart(c: char, rest: string)
    requires IsUpper(c)
    ensures UnderlineName([c] + rest) == [ToLower(c)] + Snake(rest)
  {
    SnakeConcat([c], rest);
    SnakeOne(c);
    var t := [ToLower(c)] + Snake(rest);
    assert Snake([c] + rest) == ['_'] + t;
    UnderlineDropsMark([c] + rest, t);
  }

  /** Two capitalised words: "UserInfo" becomes "user_info". */
  lemma UnderlinePascal(c: char, a: string, d: char, b: string)
    requires IsUpper(c) && IsUpper(d) && NoUpper(a) && NoUpper(b)
    ensures UnderlineName([c] + (a + [d] + b)) == [ToLower(c)] + (a + ['_', ToLower(d)] + b)
  {
    UnderlineCapitalStart(c, a + [d] + b);
    SnakeMiddle(a, d, b);
  }

  /** Two examples: a camelCase and a PascalCase name. */
  lemma UnderlineExamples()
    ensures UnderlineName("createTime") == "create_time"
    ensures UnderlineName("UserInfo") == "user_info"
  {
    var create, ime, ser, nfo := "create", "ime", "ser", "nfo";
    UnderlineCamel(create, 'T', ime);
    assert create + ['T'] + ime == "createTime";
    assert create + ['_', 't'] + ime == "create_time";
    UnderlinePascal('U', ser, 'I', nfo);
    assert ['U'] + (ser + ['I'] + nfo) == "UserInfo";
    assert ['u'] + (ser + ['_', 'i'] + nfo) == "user_info";
  }
}
