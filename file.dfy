/**
 * The two string helpers of `kutil.file`: the last path component and the
 * path without its extension. The separator of `file_name_from_path` is a
 * parameter (the source reads it from `os.path.sep`).
 */
module File {
  import opened Strings

  const EXTENSION_SEPARATOR: char := '.'

  /** `file_name_from_path`: the text after the last separator. */
  function FileNameFromPath(path: string, sep: char): (name: string)
    ensures sep !in path ==> name == path
    ensures EndsWith(path, name)
    ensures sep !in name
    ensures sep in path ==> |name| < |path| && path[|path| - |name| - 1] == sep
  {
    if sep !in path then path
    else path[LastIndexOf(path, sep) + 1..]
  }

  /** `remove_extension_from_path`: the text before the last '.', anywhere in the path. */
  function RemoveExtensionFromPath(path: string): (stripped: string)
    ensures EXTENSION_SEPARATOR !in path ==> stripped == path
    ensures EXTENSION_SEPARATOR in path ==>
      |stripped| < |path| && StartsWith(path, stripped) &&
      path[|stripped|] == EXTENSION_SEPARATOR && EXTENSION_SEPARATOR !in path[|stripped| + 1..]
  {
    if EXTENSION_SEPARATOR !in path then path
    else path[0..LastIndexOf(path, EXTENSION_SEPARATOR)]
  }

  /** A name appended after a separator is what `file_name_from_path` gives back. */
  lemma FileNameRoundTrip(dir: string, name: string, sep: char)
    requires sep !in name
    ensures FileNameFromPath(dir + [sep] + name, sep) == name
  {
    var path := dir + [sep] + name;
    assert path[|dir|] == sep;
    var r := FileNameFromPath(path, sep);
    assert path[|path| - |r|..] == name;
  }

  /** Adding ".e" to a path and removing the extension gives the path back, if `e` has no dot. */
  lemma RemoveExtensionRoundTrip(path: string, ext: string)
    requires EXTENSION_SEPARATOR !in ext
    ensures RemoveExtensionFromPath(path + [EXTENSION_SEPARATOR] + ext) == path
  {
    var full := path + [EXTENSION_SEPARATOR] + ext;
    assert full[|path|] == EXTENSION_SEPARATOR;
    assert full[..|path|] == path;
  }

  /** Removing the extension is not idempotent: each call drops one more dotted part. */
  lemma RemoveExtensionNotIdempotent()
    ensures RemoveExtensionFromPath("a.b.c") == "a.b"
    ensures RemoveExtensionFromPath(RemoveExtensionFromPath("a.b.c")) == "a"
  {
    RemoveExtensionRoundTrip("a.b", "c");
    RemoveExtensionRoundTrip("a", "b");
    assert "a.b" + [EXTENSION_SEPARATOR] + "c" == "a.b.c";
    assert "a" + [EXTENSION_SEPARATOR] + "b" == "a.b";
  }

  /** A dot inside a directory name counts like any other dot. */
  lemma RemoveExtensionSeesDirectoryDots()
    ensures RemoveExtensionFromPath("/opt/app.d/run") == "/opt/app"
  {
    RemoveExtensionRoundTrip("/opt/app", "d/run");
    assert "/opt/app" + [EXTENSION_SEPARATOR] + "d/run" == "/opt/app.d/run";
  }
}
