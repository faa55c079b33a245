/**
 * The photo-selection state behind the dashboard (MainViewModel): the set of
 * picked photos, the action-mode flag and the selected counter, plus the
 * translation of the compression form's format and size into a compressor
 * configuration.
 */
module ViewModel {
  import opened Wrappers
  import opened Photos
  import LongParsing
  import ImageCompression

  /** The content resolver's getType, as an oracle: the MIME type of a uri, if it has one. */
  type MimeOracle = Uri -> Option<string>

  /** The filter setPhotos applies: a type is known and starts with "image". */
  predicate IsImage(mime: Option<string>)
  {
    mime.Some? && "image" <= mime.value
  }

  /** The uris the filter of setPhotos keeps, in their original order. */
  function ImageUris(getType: MimeOracle, uris: seq<Uri>): (r: seq<Uri>)
    ensures |r| <= |uris|
    ensures forall u :: u in r <==> u in uris && IsImage(getType(u))
  {
    if uris == [] then []
    else (if IsImage(getType(uris[0])) then [uris[0]] else []) + ImageUris(getType, uris[1..])
  }

  /** The selected photos of a set. */
  function Selected(photos: set<Photo>): set<Photo>
  {
    set p | p in photos && p.isSelected
  }

  /** The set with every photo's selection flag replaced by `b`; equal photos merge. */
  function AllMarked(photos: set<Photo>, b: bool): (r: set<Photo>)
    ensures forall p :: p in r <==> p.isSelected == b && p.uri in Uris(photos)
    ensures |r| <= |photos|
  {
    var r := set p | p in photos :: p.(isSelected := b);
    assert r == set u | u in Uris(photos) :: Photo(u, b);
    UrisNoLarger(photos);
    CardMapped(Uris(photos), b);
    r
  }

  lemma UrisNoLarger(photos: set<Photo>)
    ensures |Uris(photos)| <= |photos|
  {
    if photos != {} {
      var p :| p in photos;
      var rest := photos - {p};
      UrisNoLarger(rest);
      assert Uris(photos) <= Uris(rest) + {p.uri};
      SubsetCard(Uris(photos), Uris(rest) + {p.uri});
    }
  }

  lemma SubsetCard<T>(a: set<T>, b: set<T>)
    requires a <= b
    ensures |a| <= |b|
  {
    assert b == a + (b - a);
  }

  lemma CardMapped(uris: set<Uri>, b: bool)
    ensures |set u | u in uris :: Photo(u, b)| == |uris|
  {
    if uris != {} {
      var u :| u in uris;
      CardMapped(uris - {u}, b);
      assert (set v | v in uris :: Photo(v, b)) == (set v | v in uris - {u} :: Photo(v, b)) + {Photo(u, b)};
    }
  }

  /** The flip togglePhotoSelection applies to one photo. */
  function Flip(p: Photo, uri: Uri): Photo
  {
    if p.uri == uri then p.(isSelected := !p.isSelected) else p
  }

  /**
   * The set with the selection of every photo carrying `uri` flipped. A photo
   * with that uri is in the result exactly when its opposite was in the set;
   * photos with any other uri are untouched.
   */
  function Toggled(photos: set<Photo>, uri: Uri): (r: set<Photo>)
    ensures forall p: Photo :: p.uri == uri ==> (p in r <==> Photo(uri, !p.isSelected) in photos)
    ensures forall p: Photo :: p.uri != uri ==> (p in r <==> p in photos)
  {
    var r := set p | p in photos :: Flip(p, uri);
    assert forall p: Photo :: p.uri == uri && Photo(uri, !p.isSelected) in photos ==> Flip(Photo(uri, !p.isSelected), uri) == p;
    assert forall p: Photo :: p.uri != uri && p in photos ==> Flip(p, uri) == p;
    r
  }

  /** Toggling the same uri twice gives the original set back. */
  lemma ToggleTwice(photos: set<Photo>, uri: Uri)
    ensures Toggled(Toggled(photos, uri), uri) == photos
  {
    var t := Toggled(Toggled(photos, uri), uri);
    forall p
      ensures p in t <==> p in photos
    {
      if p.uri == uri {
        assert Photo(uri, !p.isSelected).uri == uri;
        assert Photo(uri, !!p.isSelected) == p;
      }
    }
  }

  /** Toggling never adds or loses a uri. */
  lemma ToggleKeepsUris(photos: set<Photo>, uri: Uri)
    ensures Uris(Toggled(photos, uri)) == Uris(photos)
  {
    var t := Toggled(photos, uri);
    forall u | u in Uris(photos)
      ensures u in Uris(t)
    {
      var p :| p in photos && p.uri == u;
      if u == uri {
        assert Photo(uri, !p.isSelected) in t;
      } else {
        assert p in t;
      }
    }
    forall u | u in Uris(t)
      ensures u in Uris(photos)
    {
      var p :| p in t && p.uri == u;
      if u == uri {
        assert Photo(uri, !p.isSelected) in photos;
      } else {
        assert p in photos;
      }
    }
  }

  /** The photos kept by removeSelectedPhotos. */
  function Unselected(photos: set<Photo>): set<Photo>
  {
    set p | p in photos && !p.isSelected
  }

  /** Clearing the flags of photos that are all unselected changes nothing. */
  lemma UnmarkUnselected(photos: set<Photo>)
    ensures AllMarked(Unselected(photos), false) == Unselected(photos)
  {
    var u := Unselected(photos);
    forall p | p in AllMarked(u, false)
      ensures p in u
    {
      var q :| q in u && q.uri == p.uri;
      assert q == p;
    }
  }

  /** Why compress could not build a configuration: the size map was empty, or its value was no number. */
  datatype SizeError = NoSizeEntry | NotANumber(text: string)

  /**
   * The export format chosen by name: "png", "jpg" and "webp" name PNG, JPEG
   * and WEBP, and any other name gives no format.
   */
  function FormatFromName(exportFormat: string): (r: Option<ImageCompression.CompressFormat>)
    ensures r == Some(ImageCompression.PNG) <==> exportFormat == "png"
    ensures r == Some(ImageCompression.JPEG) <==> exportFormat == "jpg"
    ensures r == Some(ImageCompression.WEBP) <==> exportFormat == "webp"
    ensures r.None? <==> exportFormat != "png" && exportFormat != "jpg" && exportFormat != "webp"
  {
    match exportFormat
    case "png" => Some(ImageCompression.PNG)
    case "jpg" => Some(ImageCompression.JPEG)
    case "webp" => Some(ImageCompression.WEBP)
    case _ => None
  }

  /** A format picked by name is written with that name as its extension; any other name gives ".jpg". */
  lemma ExtensionOfNamedFormat(exportFormat: string)
    ensures ImageCompression.Extension(FormatFromName(exportFormat)) ==
      if exportFormat == "png" || exportFormat == "webp" then "." + exportFormat else ".jpg"
  {
  }

  const KB: int := 1024
  const MB: int := 1024 * 1024

  /**
   * The size limit in bytes from the first entry (unit, amount) of the size
   * map: the amount is read as a Long and multiplied by 1024*1024 when the
   * unit is "MB" and by 1024 for any other unit, wrapping as Long arithmetic
   * does. An empty map or an amount that is no Long is an error.
   */
  function MaxSizeBytes(maxImageSize: seq<(string, string)>): (r: Result<int, SizeError>)
    ensures r.Success? ==> LongParsing.IsLong(r.value)
    ensures r.Success? <==> maxImageSize != [] && LongParsing.ParseLong(maxImageSize[0].1).Some?
    ensures maxImageSize == [] ==> r == Failure(NoSizeEntry)
    ensures r.Success? ==>
      var n := LongParsing.ParseLong(maxImageSize[0].1).value;
      var exact := (if maxImageSize[0].0 == "MB" then MB else KB) * n;
      (r.value - exact) % LongParsing.LONG_RANGE == 0 && (LongParsing.IsLong(exact) ==> r.value == exact)
  {
    if maxImageSize == [] then Failure(NoSizeEntry)
    else
      var (sizeIn, maxSize) := maxImageSize[0];
      match LongParsing.ParseLong(maxSize)
      case None => Failure(NotANumber(maxSize))
      case Some(n) =>
        Success(if sizeIn == "MB" then LongParsing.Wrap64(MB * n) else LongParsing.Wrap64(KB * n))
  }

  /** A size written as the decimal text of `n` comes out as `n` kilobytes or megabytes in bytes. */
  lemma SizeOfShownAmount(unit: string, n: int, rest: seq<(string, string)>)
    requires LongParsing.IsLong(n)
    requires LongParsing.IsLong((if unit == "MB" then MB else KB) * n)
    ensures MaxSizeBytes([(unit, LongParsing.Show(n))] + rest) ==
      Success((if unit == "MB" then MB else KB) * n)
  {
    LongParsing.ParseShow(n);
  }

  /** The configuration compress hands to the compressor, from the values of the compression form. */
  function RequestedConfig(quality: int, maxImageSize: seq<(string, string)>, exportFormat: string,
                           trailingName: string): (r: Result<ImageCompression.Config, SizeError>)
    ensures r.Success? <==> MaxSizeBytes(maxImageSize).Success?
    ensures r.Success? ==>
      r.value.quality == quality && r.value.trailingName == trailingName &&
      r.value.format == FormatFromName(exportFormat) && r.value.size == MaxSizeBytes(maxImageSize).value
  {
    match MaxSizeBytes(maxImageSize)
    case Failure(e) => Failure(e)
    case Success(size) =>
      Success(ImageCompression.Config(quality, FormatFromName(exportFormat), size, trailingName))
  }

  class MainViewModel {
    var photos: set<Photo>
    var isActionMode: bool
    var totalSelected: int
    const imageCompressor: ImageCompression.ImageCompressor

    /** The counter always equals the number of selected photos. */
    ghost predicate Valid()
      reads this
    {
      totalSelected == |Selected(photos)|
    }

    constructor (imageCompressor: ImageCompression.ImageCompressor)
      ensures photos == {} && !isActionMode && totalSelected == 0
      ensures this.imageCompressor == imageCompressor
      ensures Valid()
    {
      photos := {};
      isActionMode := false;
      totalSelected := 0;
      this.imageCompressor := imageCompressor;
    }

    /**
     * Adds an unselected photo for every new uri whose MIME type starts with
     * "image"; nothing is removed.
     */
    method SetPhotos(getType: MimeOracle, newPhotos: seq<Uri>)
      requires Valid()
      modifies this`photos
      ensures Valid()
      ensures old(photos) <= photos
      ensures forall p :: p in photos <==>
        p in old(photos) || (!p.isSelected && p.uri in newPhotos && IsImage(getType(p.uri)))
    {
      var added := set u | u in ImageUris(getType, newPhotos) :: Photo(u, false);
      assert Selected(photos + added) == Selected(photos);
      photos := photos + added;
    }

    /** Flips action mode; leaving it clears every selection and the counter. */
    method ToggleActionMode()
      requires Valid()
      modifies this`photos, this`isActionMode, this`totalSelected
      ensures Valid()
      ensures isActionMode == !old(isActionMode)
      ensures isActionMode ==> photos == old(photos) && totalSelected == old(totalSelected)
      ensures !isActionMode ==> photos == AllMarked(old(photos), false) && totalSelected == 0
    {
      isActionMode := !isActionMode;
      if !isActionMode {
        photos := set p | p in photos :: p.(isSelected := false);
        assert Selected(photos) == {};
        totalSelected := 0;
      }
    }

    /** Flips the selection of every photo with the uri of `photo` and recounts the selected photos. */
    method TogglePhotoSelection(photo: Photo)
      modifies this`photos, this`totalSelected
      ensures Valid()
      ensures photos == Toggled(old(photos), photo.uri)
    {
      photos := set p | p in photos :: Flip(p, photo.uri);
      totalSelected := |Selected(photos)|;
    }

    /** Keeps exactly the unselected photos, resets the counter, then toggles action mode. */
    method RemoveSelectedPhotos()
      requires Valid()
      modifies this`photos, this`isActionMode, this`totalSelected
      ensures Valid()
      ensures photos == Unselected(old(photos))
      ensures totalSelected == 0
      ensures isActionMode == !old(isActionMode)
    {
      photos := set p | p in photos && !p.isSelected;
      assert Selected(photos) == {};
      totalSelected := 0;
      ToggleActionMode();
      UnmarkUnselected(old(photos));
    }

    /**
     * When every photo is already selected (an empty set included) only action
     * mode is toggled; otherwise every photo becomes selected and the counter is
     * the size of the resulting set.
     */
    method SelectAllPhotos()
      requires Valid()
      modifies this`photos, this`isActionMode, this`totalSelected
      ensures Valid()
      ensures (forall p :: p in old(photos) ==> p.isSelected) ==>
        isActionMode == !old(isActionMode) &&
        photos == (if isActionMode then old(photos) else AllMarked(old(photos), false))
      ensures !(forall p :: p in old(photos) ==> p.isSelected) ==>
        isActionMode == old(isActionMode) && photos == AllMarked(old(photos), true) &&
        totalSelected == |photos|
    {
      if forall p :: p in photos ==> p.isSelected {
        ToggleActionMode();
      } else {
        photos := set p | p in photos :: p.(isSelected := true);
        assert Selected(photos) == photos;
        totalSelected := |photos|;
      }
    }

    /**
     * The part of compress that configures the compressor: on a well-formed size
     * the compressor holds the requested configuration; an empty size map or a
     * non-numeric amount stops compress before the compressor is touched.
     */
    method Compress(quality: int, maxImageSize: seq<(string, string)>, exportFormat: string, trailingName: string)
      returns (r: Result<ImageCompression.Config, SizeError>)
      modifies imageCompressor
      ensures r == RequestedConfig(quality, maxImageSize, exportFormat, trailingName)
      ensures r.Success? ==> imageCompressor.CurrentConfig() == r.value
      ensures r.Failure? ==> unchanged(imageCompressor)
    {
      var format := FormatFromName(exportFormat);
      var size := MaxSizeBytes(maxImageSize);
      if size.Failure? {
        return Failure(size.error);
      }
      var _ := imageCompressor.SetConfig(quality, format, size.value, trailingName);
      r := Success(ImageCompression.Config(quality, format, size.value, trailingName));
    }
  }
}
