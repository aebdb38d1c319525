/** `kutil.file_type.FileType`: a file extension (stem and MIME type) and its string helpers. */
module FileTypes {
  import opened Strings

  /** Both fields are fixed when the value is made and returned as given. */
  datatype FileType = FileType(stem: string, mimeType: string)
  {
    /** `extension`: the stem after a leading dot. */
    function Extension(): (ext: string)
      ensures |ext| == |stem| + 1 && ext[0] == '.' && ext[1..] == stem
    {
      "." + stem
    }

    /** `add_extension`: appends the extension unless the string already ends with it. */
    function AddExtension(s: string): (r: string)
      ensures EndsWith(r, Extension())
      ensures EndsWith(s, Extension()) ==> r == s
      ensures !EndsWith(s, Extension()) ==> r == s + Extension()
    {
      if EndsWith(s, Extension()) then s else s + Extension()
    }

    /** `remove_extension`: deletes every occurrence of the extension. */
    function RemoveExtension(s: string): (r: string)
      ensures |r| <= |s|
      ensures !Contains(s, Extension()) ==> r == s
      ensures Contains(s, Extension()) ==> |r| <= |s| - |Extension()|
    {
      var r := Replace(s, Extension(), []);
      assert !Contains(s, Extension()) ==> r == s by {
        if !Contains(s, Extension()) { ReplaceAbsent(s, Extension(), []); }
      }
      assert Contains(s, Extension()) ==> |r| <= |s| - |Extension()| by {
        if Contains(s, Extension()) { ReplaceEmptyShrinks(s, Extension()); }
      }
      r
    }

    /** An occurrence after dot-free text is removed, and the scan goes on after it. */
    lemma RemoveExtensionStripsOccurrence(a: string, b: string)
      requires '.' !in a
      ensures RemoveExtension(a + Extension() + b) == a + RemoveExtension(b)
    {
      var ext := Extension();
      assert a + ext + b == a + (ext + b);
      ReplaceSkipsPrefix(a, ext + b, ext, []);
      ReplaceLeading(b, ext, []);
    }

    /** `__str__`: the extension with its dot. */
    function ToString(): (r: string)
      ensures r == Extension()
    {
      Extension()
    }

    /** Adding twice adds once. */
    lemma AddExtensionIdempotent(s: string)
      ensures AddExtension(AddExtension(s)) == AddExtension(s)
    {
    }

    /** For a dot-free string, removing the added extension restores it. */
    lemma RemoveAfterAdd(s: string)
      requires '.' !in s
      ensures RemoveExtension(AddExtension(s)) == s
    {
      var ext := Extension();
      assert AddExtension(s) == s + ext;
      ReplaceSkipsPrefix(s, ext, ext, []);
      ReplaceLeading([], ext, []);
      assert ext + [] == ext;
    }
  }

  const JSON := FileType("json", "application/json")
  const LOG := FileType("log", "text/plain")
  const YML := FileType("yml", "application/x-yaml")
  const YAML := FileType("yaml", "application/x-yaml")
  const JPG := FileType("jpg", "image/jpeg")
  const SVG := FileType("svg", "image/svg+xml")
  const ZIP := FileType("zip", "application/zip")
}
