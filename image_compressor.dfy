/**
 * The image compressor: its configuration fields, and what compressImage decides
 * before handing a file to the compression library (extension, output file name,
 * which constraints are applied, where the result goes).
 */
module ImageCompression {
  import opened Wrappers

  /** android.graphics.Bitmap.CompressFormat. */
  datatype CompressFormat = JPEG | PNG | WEBP | WEBP_LOSSY | WEBP_LOSSLESS

  /** The four configuration fields of the compressor; a null format is None. */
  datatype Config = Config(quality: int, format: Option<CompressFormat>, size: int, trailingName: string)

  /** The initial field values, which are also the defaults of setConfig's parameters. */
  const DEFAULT_CONFIG: Config := Config(80, Some(JPEG), 0, "_compressed")

  /** Build.VERSION_CODES.Q. */
  const VERSION_CODE_Q: int := 29

  /** Environment.DIRECTORY_PICTURES and the app's own sub-directory. */
  const DIRECTORY_PICTURES: string := "Pictures"
  const APP_DIRECTORY: string := "Tinier"

  /** Where MediaStore is asked to place the output (SDK Q and later), relative to shared storage. */
  const RELATIVE_OUTPUT_DIR: string := DIRECTORY_PICTURES + "/" + APP_DIRECTORY

  /** The directory compressed images are written to before SDK Q, under the public pictures directory. */
  function OutputDir(picturesDir: string): string
  {
    picturesDir + "/" + APP_DIRECTORY
  }

  /** The file extension chosen for an output format; every other format, and none, gives ".jpg". */
  function Extension(format: Option<CompressFormat>): (r: string)
    ensures r == ".jpg" || r == ".png" || r == ".webp"
    ensures r == ".png" <==> format == Some(PNG)
    ensures r == ".webp" <==> format == Some(WEBP)
  {
    match format
    case Some(JPEG) => ".jpg"
    case Some(PNG) => ".png"
    case Some(WEBP) => ".webp"
    case _ => ".jpg"
  }

  /** Kotlin's Char.isWhitespace: the Java whitespace characters and the Unicode space separators. */
  predicate IsWhitespace(c: char)
  {
    ('\t' <= c <= '\r') || ('\U{1C}' <= c <= ' ') || c == '\U{A0}' || c == '\U{1680}' ||
    ('\U{2000}' <= c <= '\U{200A}') || c == '\U{2028}' || c == '\U{2029}' ||
    c == '\U{202F}' || c == '\U{205F}' || c == '\U{3000}'
  }

  /** Kotlin's isNullOrBlank: absent, or made of whitespace only (the empty text included). */
  predicate IsNullOrBlank(s: Option<string>)
  {
    s.None? || forall i :: 0 <= i < |s.value| ==> IsWhitespace(s.value[i])
  }

  /** Kotlin's lastIndexOf for one character: the last position of `c` in `s`, or -1. */
  function LastIndexOf(s: string, c: char): (i: int)
    ensures -1 <= i < |s|
    ensures i == -1 <==> c !in s
    ensures i >= 0 ==> s[i] == c
    ensures forall m :: i < m < |s| ==> s[m] != c
  {
    if s == [] then -1
    else if s[|s| - 1] == c then |s| - 1
    else
      var i := LastIndexOf(s[..|s| - 1], c);
      assert s == s[..|s| - 1] + [s[|s| - 1]];
      i
  }

  /**
   * java.io.File normalises a path by dropping trailing separators (and by
   * collapsing repeated ones, which cannot change the last segment).
   */
  function TrimTrailingSlashes(s: string): (r: string)
    ensures |r| <= |s| && r == s[..|r|]
    ensures r == [] || r[|r| - 1] != '/'
    ensures forall i :: |r| <= i < |s| ==> s[i] == '/'
  {
    if s != [] && s[|s| - 1] == '/' then TrimTrailingSlashes(s[..|s| - 1]) else s
  }

  /** File(path).name: the text after the last separator of the normalised path. */
  function FileName(path: string): (r: string)
    ensures '/' !in r
  {
    var p := TrimTrailingSlashes(path);
    p[LastIndexOf(p, '/') + 1..]
  }

  /** The file name is the last segment of the normalised path: a suffix preceded by a separator or by nothing. */
  lemma FileNameIsLastSegment(path: string)
    ensures var p, r := TrimTrailingSlashes(path), FileName(path);
      |r| <= |p| && r == p[|p| - |r|..] && (|r| < |p| ==> p[|p| - |r| - 1] == '/')
  {
    var p := TrimTrailingSlashes(path);
    var i := LastIndexOf(p, '/');
    assert FileName(path) == p[i + 1..];
    assert |p| - |p[i + 1..]| == i + 1;
  }

  /** Kotlin's substringBeforeLast: the text before the last `c`, or all of `s` when there is none. */
  function SubstringBeforeLast(s: string, c: char): (r: string)
    ensures c !in s ==> r == s
    ensures c in s ==> |r| < |s| && r == s[..|r|] && s[|r|] == c
    ensures c in s ==> forall m :: |r| < m < |s| ==> s[m] != c
  {
    var i := LastIndexOf(s, c);
    if i == -1 then s else s[..i]
  }

  /** File(path).nameWithoutExtension: the file name up to its last '.'. */
  function NameWithoutExtension(path: string): (r: string)
    ensures '/' !in r
    ensures |r| <= |FileName(path)| && r == FileName(path)[..|r|]
  {
    SubstringBeforeLast(FileName(path), '.')
  }

  /** The name of the compressed file: source name, then the trailing name, then the extension. */
  function OutputName(imagePath: string, trailingName: string, format: Option<CompressFormat>): (r: string)
    ensures '/' !in trailingName ==> '/' !in r
  {
    NameWithoutExtension(imagePath) + trailingName + Extension(format)
  }

  /** The last occurrence of `c` is at `k` when `s[k]` is `c` and no `c` follows it. */
  lemma LastIndexOfAt(s: string, c: char, k: nat)
    requires k < |s| && s[k] == c
    requires forall m :: k < m < |s| ==> s[m] != c
    ensures LastIndexOf(s, c) == k
  {
  }

  /** The last segment of a path whose last segment has no separator is that segment. */
  lemma FileNameOfChild(dir: string, name: string)
    requires name != [] && '/' !in name
    ensures FileName(dir + "/" + name) == name
  {
    var path := dir + "/" + name;
    assert path[|path| - 1] == name[|name| - 1];
    assert TrimTrailingSlashes(path) == path;
    assert forall m :: |dir| < m < |path| ==> path[m] == name[m - |dir| - 1];
    LastIndexOfAt(path, '/', |dir|);
    assert path[|dir| + 1..] == name;
  }

  /** The name of `dir/base.ext` without its extension is `base`, whatever dots `base` holds. */
  lemma NameWithoutExtensionOf(dir: string, base: string, ext: string)
    requires '/' !in base && '/' !in ext && '.' !in ext
    ensures NameWithoutExtension(dir + "/" + base + "." + ext) == base
  {
    var name := base + "." + ext;
    assert dir + "/" + base + "." + ext == dir + "/" + name;
    FileNameOfChild(dir, name);
    assert forall m :: |base| < m < |name| ==> name[m] == ext[m - |base| - 1];
    LastIndexOfAt(name, '.', |base|);
    assert name[..|base|] == base;
  }

  /** The output for `dir/base.ext` is `base`, the trailing name and the extension of the format. */
  lemma OutputNameOf(dir: string, base: string, ext: string, trailingName: string, format: Option<CompressFormat>)
    requires '/' !in base && '/' !in ext && '.' !in ext
    ensures OutputName(dir + "/" + base + "." + ext, trailingName, format) == base + trailingName + Extension(format)
  {
    NameWithoutExtensionOf(dir, base, ext);
  }

  /** A file name without any '.' is its own name without extension. */
  lemma NameWithoutExtensionOfPlain(dir: string, name: string)
    requires name != [] && '/' !in name && '.' !in name
    ensures NameWithoutExtension(dir + "/" + name) == name
  {
    FileNameOfChild(dir, name);
  }

  /** One constraint given to the compression library's configuration block. */
  datatype Constraint =
    | Quality(quality: int)
    | Format(format: CompressFormat)
    | Destination(dir: string, fileName: string)
    | Size(maxFileSize: int)

  /**
   * The constraints applied, in the order the configuration block applies them:
   * quality always and first, the format only when one is set, an explicit
   * destination only before SDK Q, and a size limit only when it is not 0.
   */
  function Constraints(c: Config, sdkInt: int, outputDir: string, outputName: string): (cs: seq<Constraint>)
    ensures cs != [] && cs[0] == Quality(c.quality)
    ensures forall k :: 1 <= k < |cs| ==> !cs[k].Quality?
    ensures forall f :: Format(f) in cs <==> c.format == Some(f)
    ensures forall n :: Size(n) in cs <==> c.size != 0 && n == c.size
    ensures forall d, n :: Destination(d, n) in cs <==> sdkInt < VERSION_CODE_Q && d == outputDir && n == outputName
  {
    [Quality(c.quality)]
    + (if c.format.Some? then [Format(c.format.value)] else [])
    + (if sdkInt < VERSION_CODE_Q then [Destination(outputDir, outputName)] else [])
    + (if c.size != 0 then [Size(c.size)] else [])
  }

  /** A call compressImage makes to the file system, the compression library or MediaStore. */
  datatype Call =
    | MakeDirs(dir: string)
    | Compress(imagePath: string, constraints: seq<Constraint>)
    | SaveToStorage(fileName: string, relativePath: string)

  class ImageCompressor {
    var quality: int
    var format: Option<CompressFormat>
    var size: int
    var trailingName: string

    function CurrentConfig(): Config
      reads this
    {
      Config(quality, format, size, trailingName)
    }

    constructor ()
      ensures CurrentConfig() == DEFAULT_CONFIG
    {
      quality := DEFAULT_CONFIG.quality;
      format := DEFAULT_CONFIG.format;
      size := DEFAULT_CONFIG.size;
      trailingName := DEFAULT_CONFIG.trailingName;
    }

    /** Overwrites the four fields and returns the same compressor. */
    method SetConfig(quality: int := DEFAULT_CONFIG.quality,
                     format: Option<CompressFormat> := DEFAULT_CONFIG.format,
                     size: int := DEFAULT_CONFIG.size,
                     trailingName: string := DEFAULT_CONFIG.trailingName)
      returns (self: ImageCompressor)
      modifies this
      ensures self == this
      ensures CurrentConfig() == Config(quality, format, size, trailingName)
    {
      this.quality := quality;
      this.format := format;
      this.size := size;
      this.trailingName := trailingName;
      self := this;
    }

    /**
     * Compresses one resolved image path and returns the calls made, in order.
     * The output directory is created first when it is missing. A null or blank
     * path leads to no compression and no save. Otherwise the library is called
     * once with the constraints for the current configuration, and from SDK Q on
     * the result is saved through MediaStore under the same output name that an
     * earlier SDK would have used as the destination file.
     */
    method CompressImage(imagePath: Option<string>, picturesDir: string, outputDirExists: bool, sdkInt: int)
      returns (calls: seq<Call>)
      ensures var m := if outputDirExists then 0 else 1;
        |calls| >= m && (m == 1 ==> calls[0] == MakeDirs(OutputDir(picturesDir)))
      ensures IsNullOrBlank(imagePath) ==> |calls| == (if outputDirExists then 0 else 1)
      ensures !IsNullOrBlank(imagePath) ==>
        var m := if outputDirExists then 0 else 1;
        var name := OutputName(imagePath.value, trailingName, format);
        |calls| == m + (if sdkInt < VERSION_CODE_Q then 1 else 2) &&
        calls[m] == Compress(imagePath.value, Constraints(CurrentConfig(), sdkInt, OutputDir(picturesDir), name)) &&
        (sdkInt >= VERSION_CODE_Q ==> calls[m + 1] == SaveToStorage(name, RELATIVE_OUTPUT_DIR))
      ensures !IsNullOrBlank(imagePath) ==>
        var m := if outputDirExists then 0 else 1;
        var name := OutputName(imagePath.value, trailingName, format);
        |calls| > m && calls[m].Compress? &&
        (Destination(OutputDir(picturesDir), name) in calls[m].constraints <==> sdkInt < VERSION_CODE_Q) &&
        (SaveToStorage(name, RELATIVE_OUTPUT_DIR) in calls <==> sdkInt >= VERSION_CODE_Q)
    {
      calls := [];
      var outputDir := OutputDir(picturesDir);
      if !outputDirExists {
        calls := calls + [MakeDirs(outputDir)];
      }
      if !IsNullOrBlank(imagePath) {
        var path := imagePath.value;
        var name := OutputName(path, trailingName, format);
        var constraints := Constraints(CurrentConfig(), sdkInt, outputDir, name);
        calls := calls + [Compress(path, constraints)];
        if sdkInt >= VERSION_CODE_Q {
          calls := calls + [SaveToStorage(name, RELATIVE_OUTPUT_DIR)];
        } else {
          assert Destination(outputDir, name) in constraints;
          assert forall k :: 0 <= k < |calls| ==> !calls[k].SaveToStorage?;
        }
      }
    }
  }
}
