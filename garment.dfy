/** process_garment (main.py:58-133): one garment dictionary goes through
    download, detection, segmentation and compositing, and comes back with
    its three result keys written. The network, the detector, the segmenter
    and the image library are oracles: a `UnitWorld` says what each of them
    does for this garment. */
module Garment {
  import opened Json
  import opened Naming

  const LABEL := "shirt"
  const IMAGE_KEY := "image"
  const MASK_KEY := "mask_file_path"
  const SEGMENT_KEY := "segment_file_path"
  const DETECTED_KEY := "shirt_detected"
  const RESULT_KEYS := {MASK_KEY, SEGMENT_KEY, DETECTED_KEY}

  /** A model object handed to process_garment; `Unset` is Python's None. */
  datatype Handle = Unset | Loaded(id: nat)

  /** The detector model, the segmenter model and the segmenter's transform. */
  datatype Handles = Handles(dino: Handle, sam: Handle, transform: Handle)

  /** The parent process's module globals (main.py:25-27): what main hands to
      every task (main.py:198-200). The worker initializer never touches them. */
  const PARENT_HANDLES := Handles(Unset, Unset, Unset)

  /** What the worker initializer builds (main.py:29-36). */
  predicate Initialised(h: Handles)
  {
    h.dino.Loaded? && h.sam.Loaded? && h.transform.Loaded?
  }

  /** One detected box, corners (x1, y1, x2, y2). */
  datatype Box = Box(x1: real, y1: real, x2: real, y2: real)

  /** The segmenter's output image, opaque here. */
  datatype Mask = Mask(token: nat)

  /** What `requests.get` and the streamed write do for one URL: a response
      with its status code, or an exception (a non-string URL included). */
  datatype HttpOutcome = Response(status: int) | TransportError

  /** The detector's boxes in its own order after non-maximum suppression. */
  datatype Detection = Boxes(xyxy: seq<Box>) | DetectorRaised

  datatype Segmentation = Segmented(mask: Mask) | SegmenterRaised

  /** Everything outside process_garment's own logic, for one garment:
      the download, whether the downloaded file is on disk afterwards, the
      detector and segmenter as functions of their arguments, and whether the
      mask save and the composite (open, convert, composite, save) succeed. */
  datatype UnitWorld = UnitWorld(
    http: HttpOutcome,
    onDisk: bool,
    detector: (string, string) -> Detection,
    segmenter: (string, Box) -> Segmentation,
    maskSaved: bool,
    compositeSaved: bool)

  /** Contents of a file the garment writes. */
  datatype Artifact =
    | DownloadedImage(url: Value)
    | MaskPng(mask: Mask)
    | CompositePng(source: string, mask: Mask)

  /** Which of process_garment's five exits was taken. */
  datatype Branch = NoImage | DownloadFailed | NoShirt | Detected | Raised

  /** The three result fields: both paths and `True`, or both None and `False`. */
  datatype Block = Empty | Populated(maskPath: string, segmentPath: string)

  datatype Outcome = Outcome(branch: Branch, block: Block, files: map<string, Artifact>)

  /** The arguments process_garment receives besides the garment and its index,
      and the working directory that `os.path.abspath` resolves against. */
  datatype Context = Context(handles: Handles, maskDir: string, segmentDir: string, cwd: string)

  /** The three keys as the garment dictionary holds them after process_garment. */
  function BlockFields(b: Block): Dict
  {
    match b
    case Empty => map[MASK_KEY := Null, SEGMENT_KEY := Null, DETECTED_KEY := Bool(false)]
    case Populated(m, s) => map[MASK_KEY := Str(m), SEGMENT_KEY := Str(s), DETECTED_KEY := Bool(true)]
  }

  /** The result block is fully populated or fully empty, never mixed. */
  predicate Shaped(d: Dict)
  {
    && MASK_KEY in d && SEGMENT_KEY in d && DETECTED_KEY in d
    && (|| (d[MASK_KEY].Str? && d[SEGMENT_KEY].Str? && d[DETECTED_KEY] == Bool(true))
        || (d[MASK_KEY] == Null && d[SEGMENT_KEY] == Null && d[DETECTED_KEY] == Bool(false)))
  }

  /** download_image (main.py:39-56): the save path after a 200 response; None
      after any other status and after any exception. */
  function DownloadImage(savePath: string, http: HttpOutcome): (r: Option<string>)
    ensures r.Some? <==> http == Response(200)
    ensures r.Some? ==> r.value == savePath
  {
    match http
    case Response(status) => if status == 200 then Some(savePath) else None
    case TransportError => None
  }

  /** grounded(path, "shirt", model) (main.py:81): calling the detector through
      a None model raises (grounded.py:31). */
  function Grounded(h: Handles, w: UnitWorld, path: string): Detection
  {
    if h.dino.Unset? then DetectorRaised else w.detector(path, LABEL)
  }

  /** The decision tree of process_garment: which exit it takes, the block it
      writes and the files it writes. A failure after a file was written
      (the mask saved, the composite not) leaves that file and an empty block. */
  function GarmentOutcome(garment: Dict, index: string, ctx: Context, w: UnitWorld): Outcome
  {
    var image := Get(garment, IMAGE_KEY, Null);
    if !Truthy(image) then Outcome(NoImage, Empty, map[])
    else
      var savePath := DownloadPath(index);
      var fetched := if w.http == Response(200) && w.onDisk then map[savePath := DownloadedImage(image)] else map[];
      var downloaded := DownloadImage(savePath, w.http);
      if !(downloaded.Some? && w.onDisk) then Outcome(DownloadFailed, Empty, fetched)
      else
        match Grounded(ctx.handles, w, savePath)
        case DetectorRaised => Outcome(Raised, Empty, fetched)
        case Boxes(xyxy) =>
          if |xyxy| == 0 then Outcome(NoShirt, Empty, fetched)
          else
            match w.segmenter(savePath, xyxy[0])
            case SegmenterRaised => Outcome(Raised, Empty, fetched)
            case Segmented(mask) =>
              var maskPath := MaskPath(ctx.maskDir, index);
              if !w.maskSaved then Outcome(Raised, Empty, fetched)
              else
                var withMask := fetched[maskPath := MaskPng(mask)];
                if !w.compositeSaved then Outcome(Raised, Empty, withMask)
                else
                  var segmentPath := SegmentPath(ctx.segmentDir, index);
                  Outcome(Detected, Populated(AbsPath(ctx.cwd, maskPath), AbsPath(ctx.cwd, segmentPath)),
                          withMask[segmentPath := CompositePng(savePath, mask)])
  }

  /** The shape of every outcome: the block is populated exactly on the
      detected exit; the no-image exit is taken exactly when `image` is falsy
      and writes nothing; a detected garment records the absolute paths of its
      own mask and composite; only the garment's own three files are ever
      written, and the download is among them exactly when the image is
      truthy, the server answered 200 and the file is on disk. */
  lemma OutcomeShape(garment: Dict, index: string, ctx: Context, w: UnitWorld)
    ensures var o := GarmentOutcome(garment, index, ctx, w);
      && (o.block.Populated? <==> o.branch == Detected)
      && (o.branch == NoImage <==> !Truthy(Get(garment, IMAGE_KEY, Null)))
      && (o.branch == NoImage ==> o.files == map[])
      && (o.branch == Detected ==>
            o.block == Populated(AbsPath(ctx.cwd, MaskPath(ctx.maskDir, index)), AbsPath(ctx.cwd, SegmentPath(ctx.segmentDir, index))))
      && o.files.Keys <= UnitPaths(ctx.maskDir, ctx.segmentDir, index)
      && (DownloadPath(index) in o.files <==> Truthy(Get(garment, IMAGE_KEY, Null)) && w.http == Response(200) && w.onDisk)
  {
  }

  /** process_garment itself: the dictionary's three result keys are assigned
      on each exit, and the `except` clause overwrites them with the empty
      block whatever the `try` body had done. */
  method ProcessGarment(garment: Dict, index: string, ctx: Context, w: UnitWorld)
    returns (updated: Dict, files: map<string, Artifact>)
    ensures updated == garment + BlockFields(GarmentOutcome(garment, index, ctx, w).block)
    ensures files == GarmentOutcome(garment, index, ctx, w).files
    ensures Shaped(updated)
  {
    updated, files := garment, map[];
    var image := Get(garment, IMAGE_KEY, Null);
    if !Truthy(image) {
      updated := updated[MASK_KEY := Null][SEGMENT_KEY := Null][DETECTED_KEY := Bool(false)];
      return;
    }
    var garmentPath := DownloadPath(index);
    var downloaded := DownloadImage(garmentPath, w.http);
    if w.http == Response(200) && w.onDisk {
      files := files[garmentPath := DownloadedImage(image)];
    }
    var raised := false;
    if downloaded.Some? && w.onDisk {
      var detections := Grounded(ctx.handles, w, downloaded.value);
      if detections.DetectorRaised? {
        raised := true;
      } else if |detections.xyxy| > 0 {
        var bbox := detections.xyxy[0];
        var segmentation := w.segmenter(downloaded.value, bbox);
        if segmentation.SegmenterRaised? || !w.maskSaved {
          raised := true;
        } else {
          var maskPath := MaskPath(ctx.maskDir, index);
          files := files[maskPath := MaskPng(segmentation.mask)];
          if !w.compositeSaved {
            raised := true;
          } else {
            var segmentPath := SegmentPath(ctx.segmentDir, index);
            files := files[segmentPath := CompositePng(downloaded.value, segmentation.mask)];
            updated := updated[MASK_KEY := Str(AbsPath(ctx.cwd, maskPath))];
            updated := updated[SEGMENT_KEY := Str(AbsPath(ctx.cwd, segmentPath))];
            updated := updated[DETECTED_KEY := Bool(true)];
          }
        }
      } else {
        updated := updated[MASK_KEY := Null][SEGMENT_KEY := Null][DETECTED_KEY := Bool(false)];
      }
    } else {
      updated := updated[MASK_KEY := Null][SEGMENT_KEY := Null][DETECTED_KEY := Bool(false)];
    }
    if raised {
      updated := updated[MASK_KEY := Null][SEGMENT_KEY := Null][DETECTED_KEY := Bool(false)];
    }
  }

  /** Writing a block touches exactly the three result keys, and leaves the
      block fully populated or fully empty. */
  lemma OnlyResultKeysChange(garment: Dict, b: Block)
    ensures (garment + BlockFields(b)).Keys == garment.Keys + RESULT_KEYS
    ensures forall k :: k in garment && k !in RESULT_KEYS ==> (garment + BlockFields(b))[k] == garment[k]
    ensures Shaped(garment + BlockFields(b))
    ensures (garment + BlockFields(b))[DETECTED_KEY] == Bool(b.Populated?)
  {
  }

  /** A missing or empty `image` gives the empty block and downloads nothing. */
  lemma NoImageSkipsDownload(garment: Dict, index: string, ctx: Context, w: UnitWorld)
    requires !Truthy(Get(garment, IMAGE_KEY, Null))
    ensures GarmentOutcome(garment, index, ctx, w) == Outcome(NoImage, Empty, map[])
  {
  }

  /** A failed download (any status but 200, an exception, or the file gone)
      gives the empty block and leaves no file behind. */
  lemma DownloadFailureEmpty(garment: Dict, index: string, ctx: Context, w: UnitWorld)
    requires Truthy(Get(garment, IMAGE_KEY, Null))
    ensures var o := GarmentOutcome(garment, index, ctx, w);
      (o.branch == DownloadFailed <==> !(w.http == Response(200) && w.onDisk))
      && (o.branch == DownloadFailed ==> o.block == Empty && o.files == map[])
  {
  }

  /** Zero boxes from the detector give the empty block and no mask; otherwise
      the block is populated exactly when segmenting the FIRST box and both
      saves succeed, and the mask file holds the segmentation of that box. */
  lemma FirstBoxIsThePrompt(garment: Dict, index: string, ctx: Context, w: UnitWorld)
    requires Truthy(Get(garment, IMAGE_KEY, Null)) && w.http == Response(200) && w.onDisk
    requires Initialised(ctx.handles)
    ensures var o := GarmentOutcome(garment, index, ctx, w);
      var path := DownloadPath(index);
      match w.detector(path, LABEL)
      case DetectorRaised => o.branch == Raised && o.block == Empty
      case Boxes(xyxy) =>
        && (xyxy == [] <==> o.branch == NoShirt)
        && (xyxy == [] ==> o.block == Empty && MaskPath(ctx.maskDir, index) !in o.files)
        && (xyxy != [] ==>
              && (o.block.Populated? <==>
                    w.segmenter(path, xyxy[0]).Segmented? && w.maskSaved && w.compositeSaved)
              && (o.block.Populated? ==>
                    o.files[MaskPath(ctx.maskDir, index)] == MaskPng(w.segmenter(path, xyxy[0]).mask)))
  {
    var o := GarmentOutcome(garment, index, ctx, w);
    var path := DownloadPath(index);
    KindsNeverCollide(ctx.maskDir, ctx.segmentDir, index, index);
    assert Grounded(ctx.handles, w, path) == w.detector(path, LABEL);
  }

  /** Whatever raises inside the try block, the garment still leaves with the
      empty block: an exception never escapes to the caller. A corollary of
      OutcomeShape, whose block is populated only on the detected exit. */
  lemma RaisedGivesEmpty(garment: Dict, index: string, ctx: Context, w: UnitWorld)
    ensures GarmentOutcome(garment, index, ctx, w).branch == Raised ==>
      GarmentOutcome(garment, index, ctx, w).block == Empty
  {
    OutcomeShape(garment, index, ctx, w);
  }

  /** As main runs it: with the parent's None handles the detector call raises,
      so every garment whose image downloads ends in the except clause and no
      garment is ever marked detected. */
  lemma ParentHandlesNeverDetect(garment: Dict, index: string, maskDir: string, segmentDir: string, cwd: string, w: UnitWorld)
    ensures var o := GarmentOutcome(garment, index, Context(PARENT_HANDLES, maskDir, segmentDir, cwd), w);
      o.block == Empty
      && (Truthy(Get(garment, IMAGE_KEY, Null)) && w.http == Response(200) && w.onDisk ==> o.branch == Raised)
  {
  }

  /** The recorded paths name this garment's own files. */
  lemma RecordedPathsNameTheGarment(garment: Dict, index: string, ctx: Context, w: UnitWorld)
    requires GarmentOutcome(garment, index, ctx, w).block.Populated?
    ensures EndsWith(GarmentOutcome(garment, index, ctx, w).block.maskPath, MaskFileName(index))
    ensures EndsWith(GarmentOutcome(garment, index, ctx, w).block.segmentPath, SegmentFileName(index))
  {
    AbsPathKeepsName(ctx.cwd, ctx.maskDir, MaskFileName(index));
    AbsPathKeepsName(ctx.cwd, ctx.segmentDir, SegmentFileName(index));
  }
}
