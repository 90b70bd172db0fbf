/**
 * `underlineName(name)` of the `common` module: the same builder loop as the
 * vertx-common-core-kt extension function, written as a free function.
 */
module CommonStrUtil {
  import opened Text
  import StrUtil

  /** Agrees with the extension function on every non-empty name. */
  method UnderlineName(name: string) returns (r: string)
    requires |name| > 0
    ensures r == StrUtil.UnderlineName(name)
    ensures Text.NoUpper(r)
  {
    var sb: string := [];
    var i := 0;
    while i < |name|
      invariant 0 <= i <= |name|
      invariant sb == StrUtil.Snake(name[..i])
    {
      var c := name[i];
      assert name[..i + 1][..i] == name[..i];
      if IsUpper(c) {
        sb := sb + ['_'] + [ToLower(c)];
      } else {
        sb := sb + [c];
      }
      i := i + 1;
    }
    assert name[..|name|] == name;
    if sb[0] == '_' {
      sb := sb[1..];
    }
    r := sb;
    StrUtil.UnderlineNoUpper(name);
  }
}
