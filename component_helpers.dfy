/**
 * The naming helpers every component uses for the ids of its elements and of its
 * sub-components, and the HTML builder the components render into.
 */
module ComponentHelpers {

  /** `uniqueName.AppendElementSuffix(suffix)`: the id of one of the component's own elements. */
  function AppendElementSuffix(uniqueName: string, suffix: string): (r: string)
    ensures |r| == |uniqueName| + |suffix| + 1
    ensures r[..|uniqueName|] == uniqueName && r[|uniqueName|] == '_' && r[|uniqueName| + 1..] == suffix
  {
    uniqueName + "_" + suffix
  }

  /** `uniqueName.AppendSubComponentSuffix(suffix)`: the unique name of a sub-component. */
  function AppendSubComponentSuffix(uniqueName: string, suffix: string): (r: string)
    ensures |r| == |uniqueName| + |suffix| + 3
    ensures r[..|uniqueName|] == uniqueName && r[|uniqueName|..|uniqueName| + 3] == "_-_" && r[|uniqueName| + 3..] == suffix
  {
    uniqueName + "_-_" + suffix
  }

  /** Different suffixes give different element ids, and the suffix can be read back. */
  lemma {:induction false} ElementSuffixInjective(uniqueName: string, s: string, t: string)
    ensures AppendElementSuffix(uniqueName, s) == AppendElementSuffix(uniqueName, t) <==> s == t
  {
    var a, b := AppendElementSuffix(uniqueName, s), AppendElementSuffix(uniqueName, t);
    if a == b {
      assert s == a[|uniqueName| + 1..] == b[|uniqueName| + 1..] == t;
    }
  }

  /** Elements of two sub-components whose names start differently never share an id. */
  lemma {:induction false} SiblingIdsDistinct(uniqueName: string, sub1: string, t1: string, sub2: string, t2: string)
    requires |sub1| > 0 && |sub2| > 0 && sub1[0] != sub2[0]
    ensures AppendElementSuffix(AppendSubComponentSuffix(uniqueName, sub1), t1)
         != AppendElementSuffix(AppendSubComponentSuffix(uniqueName, sub2), t2)
  {
    var k := |uniqueName| + 3;
    var a, b := AppendSubComponentSuffix(uniqueName, sub1), AppendSubComponentSuffix(uniqueName, sub2);
    assert a[k] == sub1[0] && b[k] == sub2[0];
    assert AppendElementSuffix(a, t1)[k] == a[k];
    assert AppendElementSuffix(b, t2)[k] == b[k];
  }

  /**
   * An element of a component never has the id of an element of one of its
   * sub-components, as long as the element suffix does not start with '-'.
   */
  lemma {:induction false} SubComponentIdsDistinct(uniqueName: string, s: string, sub: string, t: string)
    requires |s| > 0 && s[0] != '-'
    ensures AppendElementSuffix(uniqueName, s) != AppendElementSuffix(AppendSubComponentSuffix(uniqueName, sub), t)
  {
    var a := AppendElementSuffix(uniqueName, s);
    var c := AppendSubComponentSuffix(uniqueName, sub);
    var b := AppendElementSuffix(c, t);
    assert a[|uniqueName| + 1] == s[0];
    assert b[..|c|] == c;
    assert b[|uniqueName| + 1] == c[|uniqueName| + 1] == '-';
  }

  /** The text an `HtmlContentBuilder` writes: its pieces, in order, without encoding. */
  function Concat(parts: seq<string>): string {
    if parts == [] then "" else Concat(parts[..|parts| - 1]) + parts[|parts| - 1]
  }

  /** `HtmlContentBuilder` holding raw HTML appended with `AppendHtml`. */
  class HtmlContentBuilder {
    var parts: seq<string>

    constructor()
      ensures parts == []
    {
      parts := [];
    }

    /** `AppendHtml(html)`. */
    method AppendHtml(html: string)
      modifies this
      ensures parts == old(parts) + [html]
    {
      parts := parts + [html];
    }

    /** `WriteTo(writer, HtmlEncoder.Default)`: raw HTML is written as it was appended. */
    function Written(): string
      reads this
    {
      Concat(parts)
    }
  }

  /** Appending a piece extends the written text by exactly that piece. */
  lemma ConcatAppend(parts: seq<string>, html: string)
    ensures Concat(parts + [html]) == Concat(parts) + html
  {
    assert (parts + [html])[..|parts|] == parts;
  }
}
