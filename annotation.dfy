/** What one annotation file and its image look like to the converter, and
    the collaborators it reaches them through. */
module Annotation {
  import opened Wrappers
  import opened Paths

  /** A box in pixel coordinates, in the order the box reader returns
      them: `[xmin, ymin, xmax, ymax]`. */
  datatype Rect = Rect(xmin: real, ymin: real, xmax: real, ymax: real)

  /** One labelled box: a rectangle and its class name. The box reader
      returns rectangles and class names as two lists of equal length; a
      list of pairs keeps that invariant by construction. */
  datatype Box = Box(rect: Rect, cls: string)

  type Positive = n: int | n > 0 witness 1

  type byte = b: int | 0 <= b < 256

  /** A decoded image: its size, the number of bands of its pixel array
      (1 for a grey-scale image, 3 for RGB, 4 for RGBA) and its PNG
      re-encoding, None when PIL cannot save its mode as PNG. */
  datatype Image = Image(width: Positive, height: Positive, bands: nat, png: Option<seq<byte>>)

  /** The outside world as the converter sees it:
      - `text(p)`: the content of the annotation file `p`, as text;
      - `isFile(p)`: `os.path.isfile(p)`;
      - `readRects(p)`: what `bbox_writer.read_rects(p)` returns;
      - `openImage(p)`: the image PIL decodes from `p`, or None when it
        cannot (missing file, unreadable data). */
  datatype Env = Env(
    text: Path -> string,
    isFile: Path -> bool,
    readRects: Path -> seq<Box>,
    openImage: Path -> Option<Image>)

  function Classes(boxes: seq<Box>): seq<string>
  {
    seq(|boxes|, k requires 0 <= k < |boxes| => boxes[k].cls)
  }

  function ClassSet(boxes: seq<Box>): set<string>
  {
    set b | b in boxes :: b.cls
  }
}
