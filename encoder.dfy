/** The record encoder (`create_tf_example`): find the image paired with an
    annotation file, read its boxes, normalise them into `[0, 1]`, look up
    their class ids and assemble one example. */
module Encoder {
  import opened Wrappers
  import opened Strings
  import opened Paths
  import opened Annotation
  import opened Labels

  datatype Error =
    | ImageUnreadable(path: Path)   // PIL cannot open the image
    | PngEncodingFailed(path: Path) // PIL cannot save the image as PNG
    | NoChannelAxis(path: Path)     // a one-band image has no third array axis
    | UnknownClass(name: string)    // a class name that is not a key of the label dict

  /** Index of the first line break of `s` (universal newlines: "\n" or
      "\r"), or `|s|` when there is none. */
  function LineEnd(s: string): (i: nat)
    ensures i <= |s|
    ensures forall k :: 0 <= k < i ==> s[k] != '\n' && s[k] != '\r'
    ensures i < |s| ==> s[i] == '\n' || s[i] == '\r'
  {
    if |s| == 0 || s[0] == '\n' || s[0] == '\r' then 0 else 1 + LineEnd(s[1..])
  }

  /** `f.readline()` on a file opened in text mode: the text up to its
      first line break, with that break read as "\n"; the whole text when
      there is no break. */
  function ReadLine(s: string): (r: string)
    ensures |r| <= |s|
    ensures '\r' !in r
    ensures forall k :: 0 <= k < |r| - 1 ==> r[k] == s[k] && r[k] != '\n'
    ensures r != [] && r[|r| - 1] == '\n' ==> s[|r| - 1] == '\n' || s[|r| - 1] == '\r'
    ensures r == [] || r[|r| - 1] != '\n' ==> r == s
  {
    var i := LineEnd(s);
    if i == |s| then s else s[..i] + "\n"
  }

  /** The image for an annotation file: the path named on its first line
      after a "#" when that path is a file, otherwise the annotation's own
      directory and stem with the extension ".png". */
  function ImagePath(txtPath: Path, first: string, isFile: Path -> bool): (r: Path)
    ensures StartsWith(first, "#") && isFile(first[1..]) ==> r == first[1..]
    ensures !(StartsWith(first, "#") && isFile(first[1..])) ==>
      && r == Join(Dirname(txtPath), Basename(r))
      && Dirname(r) == Dirname(txtPath) && Basename(r) == SplitextRoot(Basename(txtPath)) + ".png"
  {
    if StartsWith(first, "#") && isFile(first[1..]) then first[1..]
    else
      var txtName := Basename(txtPath);
      var imageName := SplitextRoot(txtName) + ".png";
      SplitextRootIsPrefix(txtName);
      assert '/' !in imageName by {
        forall k | 0 <= k < |imageName| ensures imageName[k] != '/' {
          if k < |SplitextRoot(txtName)| {
            assert imageName[k] == txtName[k];
            assert txtName[k] in txtName;
          }
        }
      }
      DirnameShape(txtPath);
      JoinFileName(Dirname(txtPath), imageName);
      Join(Dirname(txtPath), imageName)
  }

  lemma SplitextRootIsPrefix(p: Path)
    ensures |SplitextRoot(p)| <= |p| && SplitextRoot(p) == p[..|SplitextRoot(p)|]
  {
  }

  /** For an annotation file named `<stem>.txt` whose stem is not made of
      dots only, the derived image is `<stem>.png` beside it. */
  lemma ImageBesideAnnotation(txtPath: Path, first: string, isFile: Path -> bool, stem: string)
    requires Basename(txtPath) == stem + ".txt" && HasNonDot(stem, 0, |stem|)
    requires !(StartsWith(first, "#") && isFile(first[1..]))
    ensures Dirname(ImagePath(txtPath, first, isFile)) == Dirname(txtPath)
    ensures Basename(ImagePath(txtPath, first, isFile)) == stem + ".png"
  {
    assert '/' !in stem by {
      forall k | 0 <= k < |stem| ensures stem[k] != '/' {
        assert stem[k] == Basename(txtPath)[k];
        assert Basename(txtPath)[k] in Basename(txtPath);
      }
    }
    SplitextRootOfTxt(stem);
  }

  /** `max(min(v, 1), 0)`. */
  function Clamp(v: real): (r: real)
    ensures 0.0 <= r <= 1.0
    ensures 0.0 <= v <= 1.0 ==> r == v
    ensures v < 0.0 ==> r == 0.0
    ensures v > 1.0 ==> r == 1.0
  {
    var capped := if v < 1.0 then v else 1.0;
    if capped > 0.0 then capped else 0.0
  }

  /** One normalised coordinate list: each value divided by the image
      extent, then clamped. */
  function Normalized(values: seq<real>, extent: Positive): (r: seq<real>)
    ensures |r| == |values|
    ensures forall k :: 0 <= k < |r| ==> 0.0 <= r[k] <= 1.0
    ensures forall k :: 0 <= k < |r| && 0.0 <= values[k] <= extent as real ==> r[k] == values[k] / extent as real
  {
    seq(|values|, k requires 0 <= k < |values| => Clamp(values[k] / extent as real))
  }

  function XMins(boxes: seq<Box>): seq<real> { seq(|boxes|, k requires 0 <= k < |boxes| => boxes[k].rect.xmin) }
  function YMins(boxes: seq<Box>): seq<real> { seq(|boxes|, k requires 0 <= k < |boxes| => boxes[k].rect.ymin) }
  function XMaxs(boxes: seq<Box>): seq<real> { seq(|boxes|, k requires 0 <= k < |boxes| => boxes[k].rect.xmax) }
  function YMaxs(boxes: seq<Box>): seq<real> { seq(|boxes|, k requires 0 <= k < |boxes| => boxes[k].rect.ymax) }

  /** `[labels[cls] for cls in classes]`: fails on the first class name
      that is not a key. */
  function ClassIds(labels: map<string, nat>, classes: seq<string>): (r: Result<seq<nat>, Error>)
    ensures r.Ok? <==> forall k :: 0 <= k < |classes| ==> classes[k] in labels
    ensures r.Ok? ==> |r.value| == |classes| && forall k :: 0 <= k < |classes| ==> r.value[k] == labels[classes[k]]
    ensures r.Err? ==> exists k :: (0 <= k < |classes| && r.error == UnknownClass(classes[k])
      && classes[k] !in labels && forall j :: 0 <= j < k ==> classes[j] in labels)
  {
    if classes == [] then Ok([])
    else if classes[0] !in labels then Err(UnknownClass(classes[0]))
    else match ClassIds(labels, classes[1..])
      case Err(e) =>
        ghost var k :| 1 <= k + 1 < |classes| && e == UnknownClass(classes[1..][k])
          && classes[1..][k] !in labels && forall j :: 0 <= j < k ==> classes[1..][j] in labels;
        assert forall j :: 0 <= j < k + 1 ==> classes[j] in labels by {
          forall j | 0 <= j < k + 1 ensures classes[j] in labels {
            if j > 0 { assert classes[j] == classes[1..][j - 1]; }
          }
        }
        Err(e)
      case Ok(ids) =>
        assert forall k :: 0 <= k < |classes| ==> classes[k] in labels by {
          forall k | 0 <= k < |classes| ensures classes[k] in labels {
            if k > 0 { assert classes[k] == classes[1..][k - 1]; }
          }
        }
        Ok([labels[classes[0]]] + ids)
  }

  /** The fields of one `tf.train.Example`, before serialisation. */
  datatype Example = Example(
    height: int, width: int, channels: nat,
    colorspace: string, filename: Path, sourceId: Path, imageKey: Path,
    encoded: seq<byte>, format: string,
    xmins: seq<real>, xmaxs: seq<real>, ymins: seq<real>, ymaxs: seq<real>,
    classText: seq<string>, classLabel: seq<nat>)

  /** What `create_tf_example` returns: the example, the per-class count of
      this file, and whether it is a negative example. */
  datatype Encoded = Encoded(example: Example, classCount: multiset<string>, isNegative: bool)

  /** The image path `create_tf_example` settles on for `txtPath`. */
  function ResolvedImage(txtPath: Path, env: Env): Path
  {
    ImagePath(txtPath, Strip(ReadLine(env.text(txtPath))), env.isFile)
  }

  /** Whether a decoded image opens, re-encodes and has a channel axis. */
  predicate Usable(img: Option<Image>)
  {
    img.Some? && img.value.png.Some? && img.value.bands >= 2
  }

  /** Whether the image of `txtPath` opens, re-encodes and has a channel axis. */
  predicate ImageUsable(txtPath: Path, env: Env)
  {
    Usable(env.openImage(ResolvedImage(txtPath, env)))
  }

  /** The feature dict of `create_tf_example` for one decoded image. */
  function BuildExample(im: Image, png: seq<byte>, imagePath: Path, boxes: seq<Box>, ids: seq<nat>): (e: Example)
    requires |ids| == |boxes|
    ensures e.filename == imagePath
    ensures |e.xmins| == |e.xmaxs| == |e.ymins| == |e.ymaxs| == |e.classText| == |e.classLabel| == |boxes|
    ensures forall k :: 0 <= k < |boxes| ==>
      && 0.0 <= e.xmins[k] <= 1.0 && 0.0 <= e.xmaxs[k] <= 1.0
      && 0.0 <= e.ymins[k] <= 1.0 && 0.0 <= e.ymaxs[k] <= 1.0
      && e.classText[k] == boxes[k].cls
      && e.classLabel[k] == ids[k]
    ensures e.width == im.width && e.height == im.height && e.channels == im.bands
    ensures e.colorspace == "RGB" && e.format == "png" && e.encoded == png
    ensures e.sourceId == imagePath && e.imageKey == imagePath
    ensures forall k :: 0 <= k < |boxes| ==>
      && e.xmins[k] == Clamp(boxes[k].rect.xmin / im.width as real)
      && e.xmaxs[k] == Clamp(boxes[k].rect.xmax / im.width as real)
      && e.ymins[k] == Clamp(boxes[k].rect.ymin / im.height as real)
      && e.ymaxs[k] == Clamp(boxes[k].rect.ymax / im.height as real)
  {
    Example(
      im.height, im.width, im.bands,
      "RGB", imagePath, imagePath, imagePath,
      png, "png",
      Normalized(XMins(boxes), im.width), Normalized(XMaxs(boxes), im.width),
      Normalized(YMins(boxes), im.height), Normalized(YMaxs(boxes), im.height),
      Classes(boxes), ids)
  }

  /** The part of `create_tf_example` after the image path is settled:
      decode, re-encode, read the channel axis, look up the class ids, in
      that order, stopping at the first step that fails. */
  function EncodeImage(labels: LabelDict, imagePath: Path, img: Option<Image>, boxes: seq<Box>): (r: Result<Encoded, Error>)
    ensures r.Ok? <==> Usable(img) && forall k :: 0 <= k < |boxes| ==> boxes[k].cls in AsMap(labels)
    ensures r.Ok? ==>
      && r.value.isNegative == (|boxes| == 0)
      && r.value.classCount == multiset(Classes(boxes))
      && (r.value.isNegative ==> r.value.classCount == multiset{})
    ensures img.None? ==> r == Err(ImageUnreadable(imagePath))
    ensures img.Some? && img.value.png.None? ==> r == Err(PngEncodingFailed(imagePath))
    ensures img.Some? && img.value.png.Some? && img.value.bands < 2 ==> r == Err(NoChannelAxis(imagePath))
    ensures Usable(img) && r.Err? ==> ClassIds(AsMap(labels), Classes(boxes)) == Err(r.error)
  {
    match img
    case None => Err(ImageUnreadable(imagePath))
    case Some(im) =>
      match im.png
      case None => Err(PngEncodingFailed(imagePath))
      case Some(png) =>
        if im.bands < 2 then Err(NoChannelAxis(imagePath))
        else
          var classes := Classes(boxes);
          match ClassIds(AsMap(labels), classes)
          case Err(e) => Err(e)
          case Ok(ids) =>
            Ok(Encoded(BuildExample(im, png, imagePath, boxes, ids), multiset(classes), |boxes| == 0))
  }

  /** `create_tf_example`: fails exactly when the image is unusable or a
      class name is not in the label dict, reporting the first step that
      fails; a file with no boxes is a negative example and counts no
      class. */
  function CreateExample(labels: LabelDict, txtPath: Path, env: Env): (r: Result<Encoded, Error>)
    ensures r.Ok? <==> (ImageUsable(txtPath, env)
      && forall k :: 0 <= k < |env.readRects(txtPath)| ==> env.readRects(txtPath)[k].cls in AsMap(labels))
    ensures r.Ok? ==>
      && r.value.isNegative == (|env.readRects(txtPath)| == 0)
      && r.value.classCount == multiset(Classes(env.readRects(txtPath)))
      && (r.value.isNegative ==> r.value.classCount == multiset{})
    ensures var imagePath := ResolvedImage(txtPath, env);
      var img := env.openImage(imagePath);
      && (img.None? ==> r == Err(ImageUnreadable(imagePath)))
      && (img.Some? && img.value.png.None? ==> r == Err(PngEncodingFailed(imagePath)))
      && (img.Some? && img.value.png.Some? && img.value.bands < 2 ==> r == Err(NoChannelAxis(imagePath)))
    ensures ImageUsable(txtPath, env) && r.Err? ==>
      ClassIds(AsMap(labels), Classes(env.readRects(txtPath))) == Err(r.error)
  {
    var imagePath := ResolvedImage(txtPath, env);
    EncodeImage(labels, imagePath, env.openImage(imagePath), env.readRects(txtPath))
  }

  /** The fields of an encoded example: the resolved image as file name,
      one entry per box in every list, coordinates inside `[0, 1]`, and each
      box's class name with its id from the label dict. */
  lemma CreatedExampleFields(labels: LabelDict, txtPath: Path, env: Env)
    requires CreateExample(labels, txtPath, env).Ok?
    ensures
      var boxes := env.readRects(txtPath);
      var e := CreateExample(labels, txtPath, env).value.example;
      && e.filename == ResolvedImage(txtPath, env)
      && |e.xmins| == |e.xmaxs| == |e.ymins| == |e.ymaxs| == |e.classText| == |e.classLabel| == |boxes|
      && (forall k :: 0 <= k < |boxes| ==>
            && 0.0 <= e.xmins[k] <= 1.0 && 0.0 <= e.xmaxs[k] <= 1.0
            && 0.0 <= e.ymins[k] <= 1.0 && 0.0 <= e.ymaxs[k] <= 1.0
            && e.classText[k] == boxes[k].cls
            && e.classLabel[k] == AsMap(labels)[boxes[k].cls])
    ensures
      var boxes := env.readRects(txtPath);
      var e := CreateExample(labels, txtPath, env).value.example;
      var im := env.openImage(ResolvedImage(txtPath, env)).value;
      && e.width == im.width && e.height == im.height && e.channels == im.bands
      && e.colorspace == "RGB" && e.format == "png" && e.encoded == im.png.value
      && e.sourceId == e.filename && e.imageKey == e.filename
      && forall k :: 0 <= k < |boxes| ==>
            && e.xmins[k] == Clamp(boxes[k].rect.xmin / im.width as real)
            && e.xmaxs[k] == Clamp(boxes[k].rect.xmax / im.width as real)
            && e.ymins[k] == Clamp(boxes[k].rect.ymin / im.height as real)
            && e.ymaxs[k] == Clamp(boxes[k].rect.ymax / im.height as real)
  {
  }
}
