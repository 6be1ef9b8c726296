/** Output formats: the extension-based inference of `get_format` and the
    explicit, case-insensitive format names accepted by `convert`. */
module Formats {

  datatype Option<T> = None | Some(value: T)

  /** A JPEG quality is a `u8`. */
  type Quality = q: nat | q <= 255

  /** The `ImageOutputFormat` variants the tool constructs. */
  datatype ImageFormat = Jpeg(quality: Quality) | Png | WebP

  /** The fixed quality used when JPEG is chosen by name or by extension. */
  const DEFAULT_QUALITY: Quality := 85

  /** Index of the last `c` in `s`, or -1 when there is none. */
  function LastIndex(s: string, c: char): (k: int)
    ensures -1 <= k < |s|
    ensures k >= 0 ==> s[k] == c
    ensures forall j | k < j < |s| :: s[j] != c
  {
    if s == [] then -1
    else if s[|s| - 1] == c then |s| - 1
    else LastIndex(s[..|s| - 1], c)
  }

  /** The path ends in a separator or in a `.` component. */
  predicate HasTrailingSeparator(path: string) {
    |path| >= 2 && (path[|path| - 1] == '/' || (path[|path| - 2] == '/' && path[|path| - 1] == '.'))
  }

  /** The path without trailing separators and trailing `.` components, which
      `Path::components` does not report. A lone `/` (the root) is kept. */
  function TrimTrailing(path: string): (t: string)
    ensures |t| <= |path| && t == path[..|t|]
    ensures forall i | |t| <= i < |path| :: path[i] == '/' || path[i] == '.'
    ensures !HasTrailingSeparator(t)
    ensures !HasTrailingSeparator(path) ==> t == path
    ensures forall j | |t| < j <= |path| :: HasTrailingSeparator(path[..j])
    decreases |path|
  {
    if HasTrailingSeparator(path) then
      var shorter := path[..|path| - 1];
      var t := TrimTrailing(shorter);
      assert forall i | |t| <= i < |shorter| :: path[i] == shorter[i];
      assert shorter[..|t|] == path[..|t|];
      assert forall j | |t| < j < |path| :: path[..j] == shorter[..j];
      assert path[..|path|] == path;
      t
    else path
  }

  /** The text after the last separator. */
  function FinalComponent(t: string): (name: string)
    ensures '/' !in name
    ensures |name| <= |t| && name == t[|t| - |name|..]
  {
    t[LastIndex(t, '/') + 1..]
  }

  /** `Path::file_name`: the final component when it is a normal name; none for
      an empty path, the root, `.` and `..`. */
  function FileName(path: string): (name: Option<string>)
    ensures name.Some? ==> name.value != [] && '/' !in name.value
  {
    var name := FinalComponent(TrimTrailing(path));
    if name == [] || name == "." || name == ".." then None else Some(name)
  }

  /** The extension of a file name: the text after its last `.`, unless that dot
      is its first character or there is no dot at all. */
  function NameExtension(name: string): (x: Option<string>)
    ensures x.Some? ==> '.' !in x.value && |x.value| < |name| && x.value == name[|name| - |x.value|..]
  {
    var i := LastIndex(name, '.');
    if i <= 0 then None else Some(name[i + 1..])
  }

  /** `Path::extension`. */
  function Extension(path: string): (x: Option<string>)
    ensures x.Some? ==> '.' !in x.value && '/' !in x.value
    ensures x.Some? ==> EndsWithExtension(TrimTrailing(path), x.value)
  {
    match FileName(path)
    case None => None
    case Some(name) =>
      var x := NameExtension(name);
      if x.Some? then
        NameExtensionIsDottedSuffix(name, x.value);
        DottedSuffixOfSuffix(TrimTrailing(path), name, x.value);
        x
      else x
  }

  /** `t` ends in `.e`, and that dot is preceded by some character other than a
      separator, so it does not begin the final component. */
  predicate EndsWithExtension(t: string, e: string)
  {
    && |t| >= |e| + 2
    && t[|t| - |e|..] == e
    && t[|t| - |e| - 1] == '.'
    && t[|t| - |e| - 2] != '/'
  }

  /** The extension is exactly the dotted suffix of the trimmed path, for every
      non-empty candidate extension that holds no dot and no separator. */
  lemma ExtensionIsDottedSuffix(path: string, e: string)
    requires e != [] && '.' !in e && '/' !in e
    ensures Extension(path) == Some(e) <==> EndsWithExtension(TrimTrailing(path), e)
  {
    if EndsWithExtension(TrimTrailing(path), e) {
      DottedSuffixIsExtension(path, e);
    }
  }

  /** A dotted suffix of the trimmed path is the extension. */
  lemma DottedSuffixIsExtension(path: string, e: string)
    requires e != [] && '.' !in e && '/' !in e
    requires EndsWithExtension(TrimTrailing(path), e)
    ensures Extension(path) == Some(e)
  {
    var t := TrimTrailing(path);
    var name := FinalComponent(t);
    DottedSuffixInFinalComponent(t, e);
    DottedSuffixIsNameExtension(name, e);
    assert FileName(path) == Some(name);
  }

  /** A dotted suffix with no separator in it lies inside the final component. */
  lemma DottedSuffixInFinalComponent(t: string, e: string)
    requires '/' !in e && EndsWithExtension(t, e)
    ensures EndsWithExtension(FinalComponent(t), e)
  {
    var k := LastIndex(t, '/');
    var d := |t| - |e| - 1;
    forall j | d - 1 <= j < |t| ensures t[j] != '/' {
      if j > d {
        assert t[j] == t[|t| - |e|..][j - (|t| - |e|)];
      }
    }
    assert k < d - 1;
    var name := FinalComponent(t);
    assert name == t[k + 1..];
    assert name[|name| - |e|..] == t[|t| - |e|..];
  }

  lemma DottedSuffixIsNameExtension(name: string, e: string)
    requires '.' !in e && EndsWithExtension(name, e)
    ensures NameExtension(name) == Some(e)
  {
    var m := |name| - |e| - 1;
    forall j | m < j < |name| ensures name[j] != '.' {
      assert name[j] == name[|name| - |e|..][j - m - 1];
    }
    assert LastIndex(name, '.') == m;
  }

  lemma NameExtensionIsDottedSuffix(name: string, e: string)
    requires '/' !in name && NameExtension(name) == Some(e)
    ensures EndsWithExtension(name, e)
  {
    var i := LastIndex(name, '.');
    assert name[i - 1] != '/';
  }

  lemma DottedSuffixOfSuffix(t: string, name: string, e: string)
    requires |name| <= |t| && name == t[|t| - |name|..]
    requires EndsWithExtension(name, e)
    ensures EndsWithExtension(t, e)
  {
    var o := |t| - |name|;
    assert t[|t| - |e|..] == name[|name| - |e|..];
    assert t[|t| - |e| - 1] == name[|name| - |e| - 1];
    assert t[|t| - |e| - 2] == name[|name| - |e| - 2];
  }

  /** The format `get_format` assigns to an extension. */
  function FormatOfExtension(ext: Option<string>): ImageFormat
  {
    if ext == Some("jpg") || ext == Some("jpeg") then Jpeg(DEFAULT_QUALITY)
    else if ext == Some("png") then Png
    else if ext == Some("webp") then WebP
    else Png
  }

  /** `get_format`: infer the output format from the path's extension. */
  function GetFormat(path: string): (f: ImageFormat)
    ensures f == Jpeg(DEFAULT_QUALITY) || f == Png || f == WebP
  {
    FormatOfExtension(Extension(path))
  }

  /** `get_format` in terms of the path text alone: JPEG exactly for a `.jpg` or
      `.jpeg` suffix, WebP exactly for `.webp`, and PNG otherwise, whether the
      extension is `png`, missing or unrecognised. The match is case-sensitive. */
  lemma GetFormatBySuffix(path: string)
    ensures GetFormat(path) == Jpeg(DEFAULT_QUALITY)
        <==> EndsWithExtension(TrimTrailing(path), "jpg") || EndsWithExtension(TrimTrailing(path), "jpeg")
    ensures GetFormat(path) == WebP <==> EndsWithExtension(TrimTrailing(path), "webp")
    ensures GetFormat(path) == Png <==>
              && !EndsWithExtension(TrimTrailing(path), "jpg")
              && !EndsWithExtension(TrimTrailing(path), "jpeg")
              && !EndsWithExtension(TrimTrailing(path), "webp")
  {
    ExtensionIsDottedSuffix(path, "jpg");
    ExtensionIsDottedSuffix(path, "jpeg");
    ExtensionIsDottedSuffix(path, "webp");
  }

  /** A file named `stem.e` has the extension `e`, so its format is the one
      `FormatOfExtension` assigns to `e`. */
  lemma GetFormatOfNamedFile(stem: string, e: string)
    requires stem != [] && stem[|stem| - 1] != '/'
    requires e != [] && '.' !in e && '/' !in e
    ensures Extension(stem + "." + e) == Some(e)
    ensures GetFormat(stem + "." + e) == FormatOfExtension(Some(e))
  {
    NamedFileEndsWithExtension(stem, e);
    ExtensionIsDottedSuffix(stem + "." + e, e);
  }

  /** `stem.e` has nothing to trim and ends in the dotted suffix `.e`. */
  lemma NamedFileEndsWithExtension(stem: string, e: string)
    requires stem != [] && stem[|stem| - 1] != '/'
    requires e != [] && '.' !in e && '/' !in e
    ensures TrimTrailing(stem + "." + e) == stem + "." + e
    ensures EndsWithExtension(stem + "." + e, e)
  {
    var p := stem + "." + e;
    assert p[|p| - 1] == e[|e| - 1];
    assert p[|p| - |e|..] == e;
    assert p[|p| - |e| - 2] == stem[|stem| - 1];
  }

  function LowerChar(c: char): char {
    if 'A' <= c <= 'Z' then (c as int - 'A' as int + 'a' as int) as char else c
  }

  /** `str::to_lowercase`, restricted to ASCII letters. */
  function AsciiLower(s: string): (r: string)
    ensures |r| == |s|
    ensures forall i | 0 <= i < |s| :: r[i] == LowerChar(s[i])
  {
    if s == [] then [] else AsciiLower(s[..|s| - 1]) + [LowerChar(s[|s| - 1])]
  }

  /** The names `convert` recognises once lowercased. */
  predicate IsFormatName(s: string) {
    s == "jpg" || s == "jpeg" || s == "png" || s == "webp"
  }

  /** `convert`'s format argument: lowercased, then matched against the four
      recognised names; anything else is unsupported. */
  function ConvertFormat(name: string): (f: Option<ImageFormat>)
    ensures f.Some? <==> IsFormatName(AsciiLower(name))
    ensures f.Some? ==> f.value == FormatOfExtension(Some(AsciiLower(name)))
  {
    var lower := AsciiLower(name);
    if lower == "jpg" || lower == "jpeg" then Some(Jpeg(DEFAULT_QUALITY))
    else if lower == "png" then Some(Png)
    else if lower == "webp" then Some(WebP)
    else None
  }

  /** Two names that differ only in the case of ASCII letters. */
  predicate SameIgnoringCase(a: string, b: string) {
    |a| == |b| && forall i | 0 <= i < |a| :: LowerChar(a[i]) == LowerChar(b[i])
  }

  /** `convert` does not care about the case of its format name. */
  lemma ConvertFormatIgnoresCase(a: string, b: string)
    requires SameIgnoringCase(a, b)
    ensures ConvertFormat(a) == ConvertFormat(b)
  {
    assert AsciiLower(a) == AsciiLower(b);
  }

  /** Lower-case ASCII letters only: the form of the names `get_format` knows. */
  predicate IsLowerWord(s: string) {
    forall i | 0 <= i < |s| :: 'a' <= s[i] <= 'z'
  }

  lemma FormatNamesAreLowerWords(e: string)
    requires IsFormatName(e)
    ensures e != [] && IsLowerWord(e) && '.' !in e && '/' !in e
    ensures AsciiLower(e) == e
  {
    assert e != [] && IsLowerWord(e);
    LowerWordIsLowercase(e);
  }

  lemma LowerWordIsLowercase(w: string)
    requires IsLowerWord(w)
    ensures AsciiLower(w) == w && '.' !in w && '/' !in w
  {
    assert forall i | 0 <= i < |w| :: LowerChar(w[i]) == w[i];
  }

  /** A recognised name with some letter in upper case is no extension that
      `get_format` recognises. */
  lemma CapitalisedNameIsUnrecognised(u: string, e: string)
    requires IsFormatName(e) && SameIgnoringCase(u, e) && u != e
    ensures u != [] && '.' !in u && '/' !in u
    ensures FormatOfExtension(Some(u)) == Png
  {
    FormatNamesAreLowerWords(e);
    CapitalisedLowerWord(u, e);
    NoFormatNameHasCapitals(u);
  }

  /** Changing the case of some letter of a lower-case word gives a word that is
      not lower-case, and it still holds no dot and no separator. */
  lemma CapitalisedLowerWord(u: string, w: string)
    requires IsLowerWord(w) && SameIgnoringCase(u, w) && u != w
    ensures !IsLowerWord(u) && '.' !in u && '/' !in u
  {
    var i :| 0 <= i < |u| && u[i] != w[i];
    assert 'A' <= u[i] <= 'Z';
    forall j | 0 <= j < |u| ensures u[j] != '.' && u[j] != '/' {
      assert LowerChar(u[j]) == w[j];
    }
  }

  /** Every recognised name is a lower-case word. */
  lemma NoFormatNameHasCapitals(u: string)
    requires !IsLowerWord(u)
    ensures !IsFormatName(u)
  {
  }

  /** A recognised name, written in any case, makes `convert` choose the format
      that `get_format` infers from the same name as a lowercase extension; the
      same name with any upper-case letter in it, used as an extension, is not
      recognised by `get_format` and falls back to PNG. */
  lemma ConvertAgreesWithExtension(stem: string, e: string, u: string)
    requires stem != [] && stem[|stem| - 1] != '/'
    requires IsFormatName(e) && SameIgnoringCase(u, e)
    ensures ConvertFormat(u) == Some(GetFormat(stem + "." + e))
    ensures u != e ==> GetFormat(stem + "." + u) == Png
  {
    FormatNamesAreLowerWords(e);
    GetFormatOfNamedFile(stem, e);
    ConvertFormatIgnoresCase(u, e);
    if u != e {
      CapitalisedNameIsUnrecognised(u, e);
      GetFormatOfNamedFile(stem, u);
    }
  }
}
