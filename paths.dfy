/**
 * Ruby's `File.extname` on a document name, simplified to names without a
 * directory part: the suffix that starts at the last '.', unless every
 * character before that dot is itself a dot (Ruby skips the leading dots
 * of a base name, so ".profile" and "..txt" have no extension). A name that
 * ends in a dot after some other character has the extension "." (Ruby 2.7
 * and later, on systems other than Windows).
 */
module Paths {

  predicate AllDots(s: string) {
    forall i :: 0 <= i < |s| ==> s[i] == '.'
  }

  /** `ext` is a dot followed by characters none of which is a dot. */
  predicate IsExtension(ext: string) {
    |ext| > 0 && ext[0] == '.' && forall i :: 1 <= i < |ext| ==> ext[i] != '.'
  }

  /**
   * The name ends in `ext`, and what comes before `ext` is not only dots:
   * the independent, suffix-based reading of "the extension of `name` is `ext`".
   */
  predicate HasExtension(name: string, ext: string) {
    |ext| < |name| && name[|name| - |ext|..] == ext && !AllDots(name[..|name| - |ext|])
  }

  /** `File.extname(name)`: either no extension at all, or an extension that ends `name`. */
  function Extname(name: string): (ext: string)
    ensures ext == [] || IsExtension(ext)
    ensures |ext| <= |name| && ext == name[|name| - |ext|..]
  {
    if |name| == 0 then []
    else
      var init, last := name[..|name| - 1], name[|name| - 1];
      if last == '.' then (if AllDots(init) then [] else ".")
      else
        var e := Extname(init);
        if e == [] then [] else e + [last]
  }

  /** `Extname` picks out exactly the extension `HasExtension` describes. */
  lemma {:induction false} ExtnameIs(name: string, ext: string)
    requires IsExtension(ext)
    ensures Extname(name) == ext <==> HasExtension(name, ext)
    decreases |name|
  {
    if |name| == 0 {
    } else if name[|name| - 1] == '.' {
      EndsInDot(name, ext);
    } else if |ext| == 1 {
      assert Extname(name) != ext;
    } else {
      var init, ext' := name[..|name| - 1], ext[..|ext| - 1];
      assert IsExtension(ext');
      ExtnameIs(init, ext');
      LastCharStep(name, ext);
    }
  }

  /** A name that ends in a dot has extension "." or none. */
  lemma EndsInDot(name: string, ext: string)
    requires IsExtension(ext) && |name| > 0 && name[|name| - 1] == '.'
    ensures Extname(name) == ext <==> HasExtension(name, ext)
  {
    var init := name[..|name| - 1];
    assert Extname(name) == if AllDots(init) then [] else ".";
    if |ext| > 1 {
      assert ext[|ext| - 1] != '.';
      if |ext| < |name| {
        assert name[|name| - |ext|..][|ext| - 1] == '.';
      }
    } else if |name| == 1 {
      assert AllDots(init);
    } else {
      assert name[..|name| - |ext|] == init;
    }
  }

  /**
   * For a name whose last character is not a dot, the extension grows by
   * that character: the step from `name[..|name| - 1]` to `name`.
   */
  lemma LastCharStep(name: string, ext: string)
    requires IsExtension(ext) && |ext| > 1 && |name| > 0 && name[|name| - 1] != '.'
    requires var init, ext' := name[..|name| - 1], ext[..|ext| - 1];
             Extname(init) == ext' <==> HasExtension(init, ext')
    ensures Extname(name) == ext <==> HasExtension(name, ext)
  {
    var init, last := name[..|name| - 1], name[|name| - 1];
    var ext' := ext[..|ext| - 1];
    assert Extname(name) == if Extname(init) == [] then [] else Extname(init) + [last];
    assert Extname(name) == ext <==> Extname(init) == ext' && ext[|ext| - 1] == last by {
      assert ext == ext' + [ext[|ext| - 1]];
    }
    HasExtensionStep(name, ext);
  }

  /** The same step for the suffix-based definition. */
  lemma HasExtensionStep(name: string, ext: string)
    requires |ext| > 1 && |name| > 0
    ensures var init, ext' := name[..|name| - 1], ext[..|ext| - 1];
            HasExtension(name, ext) <==> HasExtension(init, ext') && ext[|ext| - 1] == name[|name| - 1]
  {
    var init, ext' := name[..|name| - 1], ext[..|ext| - 1];
    if |ext| < |name| {
      var k := |name| - |ext|;
      assert name[..k] == init[..|init| - |ext'|];
      assert name[k..] == init[k..] + [name[|name| - 1]];
      assert ext == ext' + [ext[|ext| - 1]];
    }
  }
}
