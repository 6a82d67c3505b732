/** The file-name filter applied to launch arguments: a case-sensitive markdown suffix. */
module Markdown {

  /** Rust's `str::ends_with` on a string suffix. */
  predicate EndsWith(s: string, suffix: string) {
    |suffix| <= |s| && s[|s| - |suffix|..] == suffix
  }

  /** `file_path.ends_with(".md") || file_path.ends_with(".markdown")`. */
  predicate IsMarkdownPath(p: string) {
    EndsWith(p, ".md") || EndsWith(p, ".markdown")
  }

  lemma EndsWithAppended(stem: string, suffix: string)
    ensures EndsWith(stem + suffix, suffix)
  {
    assert (stem + suffix)[|stem|..] == suffix;
  }

  /** A path qualifies exactly when it is some (possibly empty) stem followed by one of the two
      extensions. */
  lemma MarkdownPathIffStemAndExtension(p: string)
    ensures IsMarkdownPath(p) <==>
      (exists stem :: p == stem + ".md") || (exists stem :: p == stem + ".markdown")
  {
    if EndsWith(p, ".md") {
      assert p == p[..|p| - 3] + ".md";
    } else if EndsWith(p, ".markdown") {
      assert p == p[..|p| - 9] + ".markdown";
    }
    forall stem | p == stem + ".md"
      ensures EndsWith(p, ".md")
    {
      EndsWithAppended(stem, ".md");
    }
    forall stem | p == stem + ".markdown"
      ensures EndsWith(p, ".markdown")
    {
      EndsWithAppended(stem, ".markdown");
    }
  }

  /** The comparison is case-sensitive: upper-case extensions do not qualify. */
  lemma UpperCaseExtensionRejected(stem: string)
    ensures !IsMarkdownPath(stem + ".MD")
    ensures !IsMarkdownPath(stem + ".MARKDOWN")
  {
    var a := stem + ".MD";
    assert a[|a| - 1] == 'D';
    var b := stem + ".MARKDOWN";
    assert b[|b| - 1] == 'N';
  }
}
