/** `kutil.file_extension.FileExtension`: an extension kept without its dot. */
module FileExtensions {
  import opened Strings

  datatype FileExtension = FileExtension(noDot: string)
  {
    /** `with_dot`: the extension after a leading dot. */
    function WithDot(): (ext: string)
      ensures |ext| == |noDot| + 1 && ext[0] == '.' && ext[1..] == noDot
    {
      "." + noDot
    }

    /** `add_to`: appends the dotted extension unless the string already ends with it. */
    function AddTo(s: string): (r: string)
      ensures EndsWith(r, WithDot())
      ensures EndsWith(s, WithDot()) ==> r == s
      ensures !EndsWith(s, WithDot()) ==> r == s + WithDot()
    {
      if EndsWith(s, WithDot()) then s else s + WithDot()
    }

    /** `remove_from`: deletes every occurrence of the dotted extension. */
    function RemoveFrom(s: string): (r: string)
      ensures |r| <= |s|
      ensures !Contains(s, WithDot()) ==> r == s
      ensures Contains(s, WithDot()) ==> |r| <= |s| - |WithDot()|
    {
      var r := Replace(s, WithDot(), []);
      assert !Contains(s, WithDot()) ==> r == s by {
        if !Contains(s, WithDot()) { ReplaceAbsent(s, WithDot(), []); }
      }
      assert Contains(s, WithDot()) ==> |r| <= |s| - |WithDot()| by {
        if Contains(s, WithDot()) { ReplaceEmptyShrinks(s, WithDot()); }
      }
      r
    }

    /** An occurrence after dot-free text is removed, and the scan goes on after it. */
    lemma RemoveFromStripsOccurrence(a: string, b: string)
      requires '.' !in a
      ensures RemoveFrom(a + WithDot() + b) == a + RemoveFrom(b)
    {
      var ext := WithDot();
      assert a + ext + b == a + (ext + b);
      ReplaceSkipsPrefix(a, ext + b, ext, []);
      ReplaceLeading(b, ext, []);
    }

    /** `__str__`: the dotted extension. */
    function ToString(): (r: string)
      ensures r == WithDot()
    {
      WithDot()
    }

    lemma AddToIdempotent(s: string)
      ensures AddTo(AddTo(s)) == AddTo(s)
    {
    }

    /** For a dot-free string, removing the added extension restores it. */
    lemma RemoveFromAfterAddTo(s: string)
      requires '.' !in s
      ensures RemoveFrom(AddTo(s)) == s
    {
      var ext := WithDot();
      assert AddTo(s) == s + ext;
      ReplaceSkipsPrefix(s, ext, ext, []);
      ReplaceLeading([], ext, []);
      assert ext + [] == ext;
    }
  }

  const JSON := FileExtension("json")
  const LOG := FileExtension("log")
}
