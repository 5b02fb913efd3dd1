/** `GpxImageEntry`: the geotagging data of one image, with a temporary copy that
    overrides the GPS values while a correlation is being tried out, and the ordering
    of images by EXIF time. */
module Gpx {
  import opened Wrappers
  import opened Instants

  /** A position; `CachedLatLon` adds only a cached projection, so both are one value here. */
  datatype LatLon = LatLon(lat: real, lon: real)

  /** The camera model of a street-level image. */
  datatype Projection = Unknown | Known(name: string)

  /** Every field of an entry except `tmp`, as one value. */
  datatype EntryFields = EntryFields(
    file: Option<string>,
    exifOrientation: Option<int>,
    exifCoor: Option<LatLon>,
    exifImgDir: Option<real>,
    exifTime: Option<Instant>,
    cameraProjection: Projection,
    isNewGpsData: bool,
    exifGpsTime: Option<Instant>,
    iptcCaption: Option<string>,
    iptcHeadline: Option<string>,
    iptcKeywords: Option<seq<string>>,
    iptcObjectName: Option<string>,
    pos: Option<LatLon>,
    speed: Option<real>,
    elevation: Option<real>,
    gpsTime: Option<Instant>,
    width: int,
    height: int)

  /** The values the temporary copy can override. */
  datatype GpsData = GpsData(pos: Option<LatLon>, speed: Option<real>, elevation: Option<real>,
                             gpsTime: Option<Instant>, exifImgDir: Option<real>, isNewGpsData: bool)

  /** What the copy constructor gives: every field of `f` except the IPTC fields and
      the camera projection, which keep their defaults. */
  function Copied(f: EntryFields): (c: EntryFields)
    ensures c.iptcCaption.None? && c.iptcHeadline.None? && c.iptcKeywords.None? && c.iptcObjectName.None?
    ensures c.cameraProjection == Unknown
    ensures c.(iptcCaption := f.iptcCaption, iptcHeadline := f.iptcHeadline, iptcKeywords := f.iptcKeywords,
               iptcObjectName := f.iptcObjectName, cameraProjection := f.cameraProjection) == f
  {
    f.(iptcCaption := None, iptcHeadline := None, iptcKeywords := None, iptcObjectName := None,
       cameraProjection := Unknown)
  }

  /** The fields of `new GpxImageEntry()`. */
  const DefaultFields := EntryFields(None, None, None, None, None, Unknown, false, None,
                                     None, None, None, None, None, None, None, None, 0, 0)

  /** `compareTo` on the EXIF times: by time when both are known, equal when both are
      unknown, and an unknown time first. */
  function CompareExifTimes(a: Option<Instant>, b: Option<Instant>): (r: int)
    ensures a.None? && b.Some? ==> r < 0
    ensures a.Some? && b.None? ==> r > 0
    ensures a.None? && b.None? ==> r == 0
  {
    if a.Some? && b.Some? then CompareTo(a.value, b.value)
    else if a.None? && b.None? then 0
    else if a.None? then -1
    else 1
  }

  predicate ValidTime(t: Option<Instant>) {
    t.None? || t.value.Valid()
  }

  /** The order is antisymmetric in sign, and ties only equal times. */
  lemma CompareExifTimesAntisymmetric(a: Option<Instant>, b: Option<Instant>)
    requires ValidTime(a) && ValidTime(b)
    ensures Sign(CompareExifTimes(a, b)) == -Sign(CompareExifTimes(b, a))
    ensures CompareExifTimes(a, b) == 0 <==> a == b
  {
    if a.Some? && b.Some? {
      CompareToAntisymmetric(a.value, b.value);
    }
  }

  /** The order is transitive, so sorting images by it is well defined. */
  lemma CompareExifTimesTransitive(a: Option<Instant>, b: Option<Instant>, c: Option<Instant>)
    requires ValidTime(a) && ValidTime(b) && ValidTime(c)
    requires CompareExifTimes(a, b) <= 0 && CompareExifTimes(b, c) <= 0
    ensures CompareExifTimes(a, c) <= 0
  {
    if a.Some? && b.Some? && c.Some? {
      CompareToFollowsTimeLine(a.value, b.value);
      CompareToFollowsTimeLine(b.value, c.value);
      CompareToFollowsTimeLine(a.value, c.value);
    }
  }

  class GpxImageEntry {
    var file: Option<string>
    var exifOrientation: Option<int>
    var exifCoor: Option<LatLon>
    var exifImgDir: Option<real>
    var exifTime: Option<Instant>
    var cameraProjection: Projection
    var isNewGpsData: bool
    var exifGpsTime: Option<Instant>
    var iptcCaption: Option<string>
    var iptcHeadline: Option<string>
    var iptcKeywords: Option<seq<string>>
    var iptcObjectName: Option<string>
    var pos: Option<LatLon>
    var speed: Option<real>
    var elevation: Option<real>
    var gpsTime: Option<Instant>
    var width: int
    var height: int
    /** The temporary copy that overrides the GPS values while it exists. */
    var tmp: GpxImageEntry?

    function Fields(): EntryFields
      reads this
    {
      EntryFields(file, exifOrientation, exifCoor, exifImgDir, exifTime, cameraProjection, isNewGpsData,
                  exifGpsTime, iptcCaption, iptcHeadline, iptcKeywords, iptcObjectName, pos, speed,
                  elevation, gpsTime, width, height)
    }

    /** The entry's own GPS values, ignoring any temporary copy. */
    function Own(): GpsData
      reads this
    {
      GpsData(pos, speed, elevation, gpsTime, exifImgDir, isNewGpsData)
    }

    /** `new GpxImageEntry()`. */
    constructor()
      ensures Fields() == DefaultFields && tmp == null
    {
      file := None;
      exifOrientation := None;
      exifCoor := None;
      exifImgDir := None;
      exifTime := None;
      cameraProjection := Unknown;
      isNewGpsData := false;
      exifGpsTime := None;
      iptcCaption := None;
      iptcHeadline := None;
      iptcKeywords := None;
      iptcObjectName := None;
      pos := None;
      speed := None;
      elevation := None;
      gpsTime := None;
      width := 0;
      height := 0;
      tmp := null;
    }

    /** `new GpxImageEntry(file)`. */
    constructor WithFile(file: Option<string>)
      ensures Fields() == DefaultFields.(file := file) && tmp == null
    {
      this.file := file;
      exifOrientation := None;
      exifCoor := None;
      exifImgDir := None;
      exifTime := None;
      cameraProjection := Unknown;
      isNewGpsData := false;
      exifGpsTime := None;
      iptcCaption := None;
      iptcHeadline := None;
      iptcKeywords := None;
      iptcObjectName := None;
      pos := None;
      speed := None;
      elevation := None;
      gpsTime := None;
      width := 0;
      height := 0;
      tmp := null;
    }

    /** The copy constructor: the listed fields, and `other`'s temporary copy itself. */
    constructor Copy(other: GpxImageEntry)
      ensures Fields() == Copied(other.Fields()) && tmp == other.tmp
    {
      file := other.file;
      exifOrientation := other.exifOrientation;
      exifCoor := other.exifCoor;
      exifImgDir := other.exifImgDir;
      exifTime := other.exifTime;
      isNewGpsData := other.isNewGpsData;
      exifGpsTime := other.exifGpsTime;
      pos := other.pos;
      speed := other.speed;
      elevation := other.elevation;
      gpsTime := other.gpsTime;
      width := other.width;
      height := other.height;
      tmp := other.tmp;
      cameraProjection := Unknown;
      iptcCaption := None;
      iptcHeadline := None;
      iptcKeywords := None;
      iptcObjectName := None;
    }

    // The getters that prefer the temporary copy.

    function GetPos(): Option<LatLon>
      reads this, tmp
    {
      if tmp != null then tmp.pos else pos
    }

    function GetSpeed(): Option<real>
      reads this, tmp
    {
      if tmp != null then tmp.speed else speed
    }

    function GetElevation(): Option<real>
      reads this, tmp
    {
      if tmp != null then tmp.elevation else elevation
    }

    function GetGpsInstant(): Option<Instant>
      reads this, tmp
    {
      if tmp != null then tmp.gpsTime else gpsTime
    }

    function GetExifImgDir(): Option<real>
      reads this, tmp
    {
      if tmp != null then tmp.exifImgDir else exifImgDir
    }

    function HasNewGpsData(): bool
      reads this, tmp
    {
      if tmp != null then tmp.isNewGpsData else isNewGpsData
    }

    /** Everything the tmp-preferring getters show. */
    function Shown(): GpsData
      reads this, tmp
    {
      GpsData(GetPos(), GetSpeed(), GetElevation(), GetGpsInstant(), GetExifImgDir(), HasNewGpsData())
    }

    /** `hasGpsTime`: the temporary copy's or the entry's own GPS time is set. */
    function HasGpsTime(): (r: bool)
      reads this, tmp
      ensures r <==> GetGpsInstant().Some? || gpsTime.Some?
    {
      (tmp != null && tmp.gpsTime.Some?) || gpsTime.Some?
    }

    /** `getExifOrientation`: 1 (the EXIF default) when unset. */
    function GetExifOrientation(): (r: int)
      reads this
      ensures exifOrientation.None? ==> r == 1
      ensures exifOrientation.Some? ==> r == exifOrientation.value
    {
      if exifOrientation.Some? then exifOrientation.value else 1
    }

    /** `isTagged`: the entry's own position is set; the temporary copy is not consulted. */
    function IsTagged(): (r: bool)
      reads this, tmp
      ensures r <==> pos.Some?
      ensures tmp == null ==> (r <==> GetPos().Some?)
    {
      pos.Some?
    }

    /** `compareTo`: by EXIF time, an image without one sorting first. */
    function CompareTo(image: GpxImageEntry): (r: int)
      reads this, image
      ensures exifTime.None? && image.exifTime.Some? ==> r < 0
      ensures exifTime.Some? && image.exifTime.None? ==> r > 0
      ensures exifTime.None? && image.exifTime.None? ==> r == 0
      ensures exifTime.Some? && image.exifTime.Some? ==> r == Instants.CompareTo(exifTime.value, image.exifTime.value)
    {
      CompareExifTimes(exifTime, image.exifTime)
    }

    // Setters

    method SetPos(pos: Option<LatLon>)
      modifies this
      ensures Fields() == old(Fields()).(pos := pos) && tmp == old(tmp)
    {
      this.pos := pos;
    }

    method SetSpeed(speed: Option<real>)
      modifies this
      ensures Fields() == old(Fields()).(speed := speed) && tmp == old(tmp)
    {
      this.speed := speed;
    }

    method SetElevation(elevation: Option<real>)
      modifies this
      ensures Fields() == old(Fields()).(elevation := elevation) && tmp == old(tmp)
    {
      this.elevation := elevation;
    }

    method SetFile(file: Option<string>)
      modifies this
      ensures Fields() == old(Fields()).(file := file) && tmp == old(tmp)
    {
      this.file := file;
    }

    method SetExifOrientation(exifOrientation: Option<int>)
      modifies this
      ensures Fields() == old(Fields()).(exifOrientation := exifOrientation) && tmp == old(tmp)
    {
      this.exifOrientation := exifOrientation;
    }

    method SetExifTime(exifTime: Option<Instant>)
      modifies this
      ensures Fields() == old(Fields()).(exifTime := exifTime) && tmp == old(tmp)
    {
      this.exifTime := exifTime;
    }

    method SetExifGpsTime(exifGpsTime: Option<Instant>)
      modifies this
      ensures Fields() == old(Fields()).(exifGpsTime := exifGpsTime) && tmp == old(tmp)
    {
      this.exifGpsTime := exifGpsTime;
    }

    method SetGpsTime(gpsTime: Option<Instant>)
      modifies this
      ensures Fields() == old(Fields()).(gpsTime := gpsTime) && tmp == old(tmp)
    {
      this.gpsTime := gpsTime;
    }

    method SetExifCoor(exifCoor: Option<LatLon>)
      modifies this
      ensures Fields() == old(Fields()).(exifCoor := exifCoor) && tmp == old(tmp)
    {
      this.exifCoor := exifCoor;
    }

    method SetExifImgDir(exifImgDir: Option<real>)
      modifies this
      ensures Fields() == old(Fields()).(exifImgDir := exifImgDir) && tmp == old(tmp)
    {
      this.exifImgDir := exifImgDir;
    }

    method SetWidth(width: int)
      modifies this
      ensures Fields() == old(Fields()).(width := width) && tmp == old(tmp)
    {
      this.width := width;
    }

    method SetHeight(height: int)
      modifies this
      ensures Fields() == old(Fields()).(height := height) && tmp == old(tmp)
    {
      this.height := height;
    }

    method SetIptcCaption(iptcCaption: Option<string>)
      modifies this
      ensures Fields() == old(Fields()).(iptcCaption := iptcCaption) && tmp == old(tmp)
    {
      this.iptcCaption := iptcCaption;
    }

    method SetIptcHeadline(iptcHeadline: Option<string>)
      modifies this
      ensures Fields() == old(Fields()).(iptcHeadline := iptcHeadline) && tmp == old(tmp)
    {
      this.iptcHeadline := iptcHeadline;
    }

    method SetIptcKeywords(iptcKeywords: Option<seq<string>>)
      modifies this
      ensures Fields() == old(Fields()).(iptcKeywords := iptcKeywords) && tmp == old(tmp)
    {
      this.iptcKeywords := iptcKeywords;
    }

    method SetIptcObjectName(iptcObjectName: Option<string>)
      modifies this
      ensures Fields() == old(Fields()).(iptcObjectName := iptcObjectName) && tmp == old(tmp)
    {
      this.iptcObjectName := iptcObjectName;
    }

    method FlagNewGpsData()
      modifies this
      ensures Fields() == old(Fields()).(isNewGpsData := true) && tmp == old(tmp)
    {
      isNewGpsData := true;
    }

    method UnflagNewGpsData()
      modifies this
      ensures Fields() == old(Fields()).(isNewGpsData := false) && tmp == old(tmp)
    {
      isNewGpsData := false;
    }

    // The temporary copy

    /** `createTmp`: a fresh copy of this entry without a temporary copy of its own,
        which from now on is what the getters show. */
    method CreateTmp() returns (t: GpxImageEntry)
      modifies this
      ensures t == tmp && fresh(t) && t.tmp == null
      ensures t.Fields() == Copied(Fields())
      ensures Fields() == old(Fields())
      ensures Shown() == Own()
    {
      t := new GpxImageEntry.Copy(this);
      t.tmp := null;
      tmp := t;
    }

    /** `getTmp`: the existing copy, or a new one when there is none. */
    method GetTmp() returns (t: GpxImageEntry)
      modifies this
      ensures t == tmp && Fields() == old(Fields())
      ensures old(tmp) != null ==> t == old(tmp)
      ensures old(tmp) == null ==> fresh(t) && t.tmp == null && t.Fields() == Copied(Fields())
    {
      if tmp == null {
        var _ := CreateTmp();
      }
      t := tmp;
    }

    /** `applyTmp`: the temporary copy's GPS values become the entry's own, the new-data
        flags are or-ed, and the copy is dropped; nothing else changes. */
    method ApplyTmp()
      modifies this
      ensures tmp == null
      ensures old(tmp) == null ==> Fields() == old(Fields())
      ensures old(tmp) != null ==>
        Fields() == old(Fields()).(pos := old(tmp.pos), speed := old(tmp.speed), elevation := old(tmp.elevation),
                                   gpsTime := old(tmp.gpsTime), exifImgDir := old(tmp.exifImgDir),
                                   isNewGpsData := old(isNewGpsData) || old(tmp.isNewGpsData))
      ensures old(tmp) != null ==> Own() == old(tmp.Own()).(isNewGpsData := old(isNewGpsData) || old(tmp.isNewGpsData))
    {
      if tmp != null {
        var t := tmp.Own();
        SetPos(t.pos);
        SetSpeed(t.speed);
        SetElevation(t.elevation);
        SetGpsTime(t.gpsTime);
        SetExifImgDir(t.exifImgDir);
        if t.isNewGpsData {
          FlagNewGpsData();
        }
        tmp := null;
      }
    }

    /** `discardTmp`: the copy is dropped and the getters show the entry's own values again. */
    method DiscardTmp()
      modifies this
      ensures tmp == null && Fields() == old(Fields())
      ensures Shown() == old(Own())
    {
      tmp := null;
    }
  }

  /** The getters show the temporary copy's values whenever it exists, and the entry's
      own values otherwise. */
  lemma TmpOverrides(e: GpxImageEntry)
    ensures e.tmp != null ==> e.Shown() == e.tmp.Own()
    ensures e.tmp == null ==> e.Shown() == e.Own()
  {
  }

  /** `isTagged` does not look at the temporary copy: an entry whose copy has a position
      but which has none of its own is not tagged, although `getPos` shows a position. */
  lemma TaggedIgnoresTmp(e: GpxImageEntry)
    requires e.tmp != null && e.tmp.pos.Some? && e.pos.None?
    ensures !e.IsTagged() && e.GetPos().Some?
  {
  }

  /** Comparing two images is antisymmetric in sign, and they tie exactly when their
      EXIF times are equal. */
  lemma EntryCompareAntisymmetric(a: GpxImageEntry, b: GpxImageEntry)
    requires ValidTime(a.exifTime) && ValidTime(b.exifTime)
    ensures Sign(a.CompareTo(b)) == -Sign(b.CompareTo(a))
    ensures a.CompareTo(b) == 0 <==> a.exifTime == b.exifTime
  {
    CompareExifTimesAntisymmetric(a.exifTime, b.exifTime);
  }

  /** `hasGpsTime` does not agree with `getGpsInstant`: with a temporary copy lacking a
      GPS time, the entry still has a GPS time while the getter shows none. */
  lemma HasGpsTimeDisagreement(e: GpxImageEntry)
    requires e.tmp != null && e.tmp.gpsTime.None? && e.gpsTime.Some?
    ensures e.HasGpsTime() && e.GetGpsInstant().None?
  {
  }
}
