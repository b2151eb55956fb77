/** File-name helpers: separators and extensions (the pure part of `Files`). */
module Files {
  import opened Common

  const ExtensionSeparator: char := '.'
  const UnixSeparator: char := '/'
  const WindowsSeparator: char := '\\'

  predicate IsSeparator(c: char) { c == UnixSeparator || c == WindowsSeparator }

  /** `String.lastIndexOf(char)`: the last position holding `c`, or -1. */
  function LastIndexOf(s: string, c: char): (r: int)
    ensures -1 <= r < |s|
    ensures r >= 0 ==> s[r] == c
    ensures forall k :: r < k < |s| ==> s[k] != c
  {
    if |s| == 0 then -1
    else if s[|s| - 1] == c then |s| - 1
    else LastIndexOf(s[..|s| - 1], c)
  }

  /** The last `/` or `\` of `filename`, or -1 when it has neither. */
  function IndexOfLastSeparator(filename: string): (r: int)
    ensures -1 <= r < |filename|
    ensures r >= 0 ==> IsSeparator(filename[r])
    ensures forall k :: r < k < |filename| ==> !IsSeparator(filename[k])
  {
    Max(LastIndexOf(filename, UnixSeparator), LastIndexOf(filename, WindowsSeparator))
  }

  /** The position of the dot that starts the extension: the last dot, unless a
      separator follows it; -1 when there is no such dot. */
  function IndexOfExtension(filename: string): (r: int)
    ensures -1 <= r < |filename|
    ensures r >= 0 ==> filename[r] == ExtensionSeparator
    ensures r >= 0 ==> forall k :: r < k < |filename| ==>
      filename[k] != ExtensionSeparator && !IsSeparator(filename[k])
    ensures r == -1 ==> forall k :: 0 <= k < |filename| && filename[k] == ExtensionSeparator ==>
      exists j :: k < j < |filename| && IsSeparator(filename[j])
  {
    var extensionPos := LastIndexOf(filename, ExtensionSeparator);
    var lastSeparator := IndexOfLastSeparator(filename);
    if lastSeparator > extensionPos then -1 else extensionPos
  }

  /** The name without its extension (and without the dot before it). */
  function RemoveExtension(filename: string): (r: string)
    ensures r <= filename
    ensures |r| == |filename| <==> IndexOfExtension(filename) == -1
    ensures |r| < |filename| ==> filename[|r|] == ExtensionSeparator
    ensures forall k :: |r| < k < |filename| ==>
      filename[k] != ExtensionSeparator && !IsSeparator(filename[k])
  {
    var index := IndexOfExtension(filename);
    if index == -1 then filename else filename[..index]
  }

  /** The text after the extension dot, or "" when there is no extension. */
  function GetExtension(filename: string): (r: string)
    ensures |r| <= |filename|
    ensures r == filename[|filename| - |r|..]
    ensures IndexOfExtension(filename) == -1 ==> r == ""
    ensures IndexOfExtension(filename) != -1 ==>
      |r| < |filename| && filename[|filename| - |r| - 1] == ExtensionSeparator
    ensures forall k :: 0 <= k < |r| ==> r[k] != ExtensionSeparator && !IsSeparator(r[k])
  {
    var index := IndexOfExtension(filename);
    if index == -1 then "" else filename[index + 1..]
  }

  /** A name with an extension is its base, a dot and its extension. */
  lemma ExtensionRoundTrip(filename: string)
    requires IndexOfExtension(filename) != -1
    ensures RemoveExtension(filename) + [ExtensionSeparator] + GetExtension(filename) == filename
  {
  }

  /** Joining a base and an extension free of dots and separators gives a name
      whose extension and base are exactly those two parts again. */
  lemma JoinSplitsBack(base: string, ext: string)
    requires forall k :: 0 <= k < |ext| ==> ext[k] != ExtensionSeparator && !IsSeparator(ext[k])
    ensures IndexOfExtension(base + [ExtensionSeparator] + ext) == |base|
    ensures RemoveExtension(base + [ExtensionSeparator] + ext) == base
    ensures GetExtension(base + [ExtensionSeparator] + ext) == ext
  {
    var name := base + [ExtensionSeparator] + ext;
    var r := IndexOfExtension(name);
    assert name[|base|] == ExtensionSeparator;
    assert forall k :: |base| < k < |name| ==> name[k] == ext[k - |base| - 1];
    assert r == |base|;
  }

  /** Whether some entry of the list (entries may be null) equals `ext`. */
  predicate ExtensionListed(ext: string, extensions: seq<Option<string>>)
  {
    exists i :: 0 <= i < |extensions| && extensions[i] == Some(ext)
  }

  /** The meaning of `isExtension`: a null name has none of the listed
      extensions; a null or empty list asks for "no extension at all";
      otherwise the extension must be one of the entries. */
  predicate HasExtension(filename: Option<string>, extensions: Option<seq<Option<string>>>)
  {
    match filename
    case None => false
    case Some(f) =>
      if extensions.None? || |extensions.value| == 0 then IndexOfExtension(f) == -1
      else ExtensionListed(GetExtension(f), extensions.value)
  }

  /** `isExtension`, as the source's search loop with early return. */
  method IsExtension(filename: Option<string>, extensions: Option<seq<Option<string>>>) returns (r: bool)
    ensures r == HasExtension(filename, extensions)
  {
    if filename.None? {
      return false;
    }
    if extensions.None? || |extensions.value| == 0 {
      return IndexOfExtension(filename.value) == -1;
    }
    var fileExt := GetExtension(filename.value);
    var list := extensions.value;
    var i := 0;
    while i < |list|
      invariant 0 <= i <= |list|
      invariant forall j :: 0 <= j < i ==> list[j] != Some(fileExt)
    {
      if list[i] == Some(fileExt) {
        return true;
      }
      i := i + 1;
    }
    return false;
  }
}
