// Cyber_Layer/Local_Server/server.py: the Flask server the ESP32 measures against and
// fetches its plot from. `/testfile.bin` and `/upload` keep in-memory speed lists and a
// query counter; `/plot.bin` turns the last rows into a 160x128 RGB565 frame, two bytes
// per pixel, low byte first.
module LocalServer {
  import opened Base
  import opened Averages

  // ---------------------------------------------------------------- RGB565

  /** One pixel of the `convert("RGB")` image: three 8-bit channels. */
  datatype Pixel = Pixel(r: bv8, g: bv8, b: bv8)

  /** The image as `np.array` holds it: rows of pixels, top row first. */
  type Image = seq<seq<Pixel>>

  /** `(r << 11) | (g << 5) | b` in 16 bits, for a 5-bit red, a 6-bit green and a 5-bit blue. */
  function Pack565(r: bv16, g: bv16, b: bv16): bv16
    requires r < 32 && g < 64 && b < 32
  {
    (r << 11) | (g << 5) | b
  }

  /** The kept high bits of each channel: `R >> 3`, `G >> 2`, `B >> 3`, widened to `uint16`. */
  function Red5(p: Pixel): (r: bv16)
    ensures r < 32
  {
    (p.r >> 3) as bv16
  }

  function Green6(p: Pixel): (g: bv16)
    ensures g < 64
  {
    (p.g >> 2) as bv16
  }

  function Blue5(p: Pixel): (b: bv16)
    ensures b < 32
  {
    (p.b >> 3) as bv16
  }

  /** The RGB565 word of one pixel. */
  function Rgb565(p: Pixel): bv16
  {
    Pack565(Red5(p), Green6(p), Blue5(p))
  }

  /** `astype("<u2")`: the low byte, then the high byte. */
  function LittleEndian(v: bv16): seq<bv8>
  {
    [(v & 0xFF) as bv8, (v >> 8) as bv8]
  }

  /** The pixels in row-major order (`tobytes` walks the rows top to bottom, each left to right). */
  function Pixels(img: Image): seq<Pixel>
  {
    if img == [] then [] else img[0] + Pixels(img[1..])
  }

  /** The serialised words of a pixel sequence. */
  function Words(ps: seq<Pixel>): seq<bv8>
  {
    if ps == [] then [] else LittleEndian(Rgb565(ps[0])) + Words(ps[1..])
  }

  /** The body of a successful `/plot.bin` response. */
  function Body(img: Image): seq<bv8>
  {
    Words(Pixels(img))
  }

  /** Every row holds `w` pixels. */
  predicate Rectangular(img: Image, w: nat)
  {
    forall i :: 0 <= i < |img| ==> |img[i]| == w
  }

  /** The packed word keeps each field in its own bits: shifting and masking gives back r, g and b. */
  lemma {:induction false} PackFields(r: bv16, g: bv16, b: bv16)
    requires r < 32 && g < 64 && b < 32
    ensures Pack565(r, g, b) >> 11 == r
    ensures (Pack565(r, g, b) >> 5) & 0x3F == g
    ensures Pack565(r, g, b) & 0x1F == b
  {
  }

  /** Every 16-bit word is the packing of its own three fields, so RGB565 words and 5-6-5 triples correspond one to one. */
  lemma {:induction false} PackAll(v: bv16)
    ensures Pack565(v >> 11, (v >> 5) & 0x3F, v & 0x1F) == v
  {
  }

  /** Since the fields do not overlap, the OR is a sum: r * 2048 + g * 32 + b. */
  lemma {:induction false} PackSum(r: bv16, g: bv16, b: bv16)
    requires r < 32 && g < 64 && b < 32
    ensures Pack565(r, g, b) == r * 2048 + g * 32 + b
  {
  }

  /** As a number the word is r * 2048 + g * 32 + b, which is below 2^16. */
  lemma {:induction false} PackValue(r: bv16, g: bv16, b: bv16)
    requires r < 32 && g < 64 && b < 32
    ensures Pack565(r, g, b) as int == r as int * 2048 + g as int * 32 + b as int
    ensures Pack565(r, g, b) as int < 0x1_0000
  {
    PackSum(r, g, b);
    assert (r * 2048 + g * 32 + b) as int == r as int * 2048 + g as int * 32 + b as int;
  }

  /** Shifting a channel right by 3 or 2 drops that many low bits. */
  lemma {:induction false} ShiftThree(x: bv8)
    ensures (x >> 3) as int == x as int / 8
  {
  }

  lemma {:induction false} ShiftTwo(x: bv8)
    ensures (x >> 2) as int == x as int / 4
  {
  }

  /** The pixel's word carries the top 5, 6 and 5 bits of red, green and blue. */
  lemma {:induction false} Rgb565Channels(p: Pixel)
    ensures Rgb565(p) >> 11 == Red5(p) && Red5(p) as int == p.r as int / 8
    ensures (Rgb565(p) >> 5) & 0x3F == Green6(p) && Green6(p) as int == p.g as int / 4
    ensures Rgb565(p) & 0x1F == Blue5(p) && Blue5(p) as int == p.b as int / 8
  {
    PackFields(Red5(p), Green6(p), Blue5(p));
    ShiftThree(p.r);
    ShiftTwo(p.g);
    ShiftThree(p.b);
  }

  /** The two bytes read back, low byte first, give the word. */
  lemma {:induction false} LittleEndianValue(v: bv16)
    ensures |LittleEndian(v)| == 2
    ensures (LittleEndian(v)[1] as bv16 << 8) | LittleEndian(v)[0] as bv16 == v
    ensures LittleEndian(v)[0] as int + 256 * LittleEndian(v)[1] as int == v as int
  {
  }

  /** Two bytes per pixel, the k-th pixel's word at offsets 2k and 2k + 1. */
  lemma {:induction false} WordsAt(ps: seq<Pixel>, k: nat)
    requires k < |ps|
    ensures |Words(ps)| == 2 * |ps|
    ensures Words(ps)[2 * k .. 2 * k + 2] == LittleEndian(Rgb565(ps[k]))
  {
    if k == 0 {
      if |ps| > 1 {
        WordsAt(ps[1..], 0);
      }
    } else {
      WordsAt(ps[1..], k - 1);
      assert ps[1..][k - 1] == ps[k];
    }
  }

  /** A w-wide image has |img| * w pixels. */
  lemma {:induction false} PixelsLength(img: Image, w: nat)
    requires Rectangular(img, w)
    ensures |Pixels(img)| == |img| * w
  {
    if img != [] {
      PixelsLength(img[1..], w);
      RowsLength(|img|, w);
    }
  }

  lemma {:induction false} RowsLength(n: nat, w: nat)
    requires n > 0
    ensures n * w == w + (n - 1) * w
  {
  }

  /** Row-major order: pixel (i, j) of a w-wide image is the (i * w + j)-th pixel. */
  lemma {:induction false} PixelsAt(img: Image, w: nat, i: nat, j: nat)
    requires Rectangular(img, w) && i < |img| && j < w
    ensures |Pixels(img)| == |img| * w
    ensures i * w + j < |Pixels(img)| && Pixels(img)[i * w + j] == img[i][j]
  {
    PixelsLength(img, w);
    RowBound(|img|, w, i, j);
    if i > 0 {
      PixelsAt(img[1..], w, i - 1, j);
      RowsLength(i, w);
    }
  }

  lemma {:induction false} RowBound(n: nat, w: nat, i: nat, j: nat)
    requires i < n && j < w
    ensures i * w + j < n * w
  {
    assert (i + 1) * w <= n * w;
  }

  /** Pixel (i, j) is serialised at byte 2(i * w + j), low byte first; the body is 2 * w * h bytes. */
  lemma {:induction false} BodyAt(img: Image, w: nat, i: nat, j: nat)
    requires Rectangular(img, w) && i < |img| && j < w
    ensures |Body(img)| == 2 * (|img| * w)
    ensures var k := 2 * (i * w + j); k + 2 <= |Body(img)| && Body(img)[k..k + 2] == LittleEndian(Rgb565(img[i][j]))
  {
    PixelsAt(img, w, i, j);
    WordsAt(Pixels(img), i * w + j);
  }

  /** `WIDTH` and `HEIGHT` of the plot. */
  const Width: nat := 160
  const Height: nat := 128

  /** A 160 x 128 frame is exactly 40960 bytes. */
  lemma {:induction false} FrameSize(img: Image)
    requires |img| == Height && Rectangular(img, Width)
    ensures |Body(img)| == 40960
  {
    BodyAt(img, Width, 0, 0);
  }

  // ---------------------------------------------------------------- /plot.bin

  /** A `network_data` row of the query (lat and lon are not null by its WHERE clause). */
  datatype Record = Record(deviceId: string, lat: real, lon: real, down: Option<real>, up: Option<real>, ts: int)

  /** A row of the data frame, with its `throughput` column. */
  datatype Plotted = Plotted(rec: Record, throughput: real)

  /** `df["down"].fillna(0)`: the download speed, 0 where it is null. */
  function Throughput(rec: Record): real
  {
    if rec.down.Some? then rec.down.value else 0.0
  }

  /** The data frame the plot is drawn from: the rows in order, each with its throughput. */
  function Frame(rows: seq<Record>): (df: seq<Plotted>)
    ensures |df| == |rows|
    ensures forall i :: 0 <= i < |rows| ==> df[i] == Plotted(rows[i], if rows[i].down.Some? then rows[i].down.value else 0.0)
  {
    if rows == [] then [] else [Plotted(rows[0], Throughput(rows[0]))] + Frame(rows[1..])
  }

  /** An HTTP response: status code and body, always `application/octet-stream` here. */
  datatype Response = Response(status: nat, body: seq<bv8>)

  /**
   * `live_plot_bin`: `fetched` is what the query returned (an error when the database
   * raised) and `draw` the plotly/kaleido/PIL chain, None when it raised. No rows is a
   * 404 with an empty body, any exception a 500 with an empty body, otherwise the frame.
   */
  function PlotBin(fetched: Result<seq<Record>, string>, draw: seq<Plotted> -> Option<Image>): Response
  {
    match fetched
    case Err(_) => Response(500, [])
    case Ok(rows) =>
      if rows == [] then Response(404, [])
      else match draw(Frame(rows))
        case None => Response(500, [])
        case Some(img) => Response(200, Body(img))
  }

  /** The three outcomes of `/plot.bin`, and the body is empty exactly on the two failures when the image is not empty. */
  lemma {:induction false} PlotBinStatus(fetched: Result<seq<Record>, string>, draw: seq<Plotted> -> Option<Image>)
    ensures var r := PlotBin(fetched, draw); r.status in {200, 404, 500}
    ensures PlotBin(fetched, draw).status == 404 <==> fetched.Ok? && fetched.value == []
    ensures PlotBin(fetched, draw).status == 200 <==> fetched.Ok? && fetched.value != [] && draw(Frame(fetched.value)).Some?
    ensures PlotBin(fetched, draw).status != 200 ==> PlotBin(fetched, draw).body == []
    ensures PlotBin(fetched, draw).status == 200 ==> PlotBin(fetched, draw).body == Body(draw(Frame(fetched.value)).value)
  {
  }

  /** A drawn 160 x 128 frame gives a 40960-byte body. */
  lemma {:induction false} PlotBinSize(fetched: Result<seq<Record>, string>, draw: seq<Plotted> -> Option<Image>)
    requires fetched.Ok? && fetched.value != []
    requires var d := draw(Frame(fetched.value)); d.Some? && |d.value| == Height && Rectangular(d.value, Width)
    ensures PlotBin(fetched, draw) == Response(200, Body(draw(Frame(fetched.value)).value))
    ensures |PlotBin(fetched, draw).body| == 40960
  {
    FrameSize(draw(Frame(fetched.value)).value);
  }

  // ---------------------------------------------------------------- speed counters

  /** `(size * 8 / duration) / 1e6 if duration > 0 else 0`, in exact arithmetic. */
  function Mbps(size: nat, duration: real): real
  {
    if duration > 0.0 then (size as real * 8.0 / duration) / 1000000.0 else 0.0
  }

  /** A speed is never negative, and it is 0 exactly for an empty transfer or a non-positive duration. */
  lemma {:induction false} MbpsSign(size: nat, duration: real)
    ensures Mbps(size, duration) >= 0.0
    ensures Mbps(size, duration) == 0.0 <==> size == 0 || duration <= 0.0
  {
    if duration > 0.0 && size > 0 {
      var q := size as real * 8.0 / duration;
      assert q * duration == size as real * 8.0;
      assert q > 0.0;
    }
  }

  /** What `/upload` answers: the body size, the measured duration and the speed, with status 200. */
  datatype UploadReply = UploadReply(size: nat, duration: real, mbps: real, status: nat)

  /** `current_metrics` with the two rolling speed lists beside it. */
  class Metrics {
    var avgDownload: real
    var avgUpload: real
    var numQueries: nat
    var currentTime: string
    var downloadSpeeds: seq<real>
    var uploadSpeeds: seq<real>

    /** Every query the two routes served left one speed behind, no speed is negative, and each average is the mean of its list. */
    predicate Valid()
      reads this
    {
      numQueries == |downloadSpeeds| + |uploadSpeeds|
      && (forall i :: 0 <= i < |downloadSpeeds| ==> downloadSpeeds[i] >= 0.0) && avgDownload >= 0.0
      && (forall i :: 0 <= i < |uploadSpeeds| ==> uploadSpeeds[i] >= 0.0) && avgUpload >= 0.0
      && (downloadSpeeds != [] ==> avgDownload == Mean(downloadSpeeds))
      && (uploadSpeeds != [] ==> avgUpload == Mean(uploadSpeeds))
    }

    constructor ()
      ensures Valid()
      ensures avgDownload == 0.0 && avgUpload == 0.0 && numQueries == 0 && currentTime == ""
      ensures downloadSpeeds == [] && uploadSpeeds == []
    {
      avgDownload, avgUpload, numQueries, currentTime := 0.0, 0.0, 0, "";
      downloadSpeeds, uploadSpeeds := [], [];
    }

    /**
     * `serve_file`: `size` is the test file's size, `start` and `finish` the two `time.time()`
     * readings around `send_file`. One download speed is appended and the query counted.
     */
    method ServeFile(size: nat, start: real, finish: real) returns (mbps: real)
      modifies this
      requires Valid()
      ensures Valid()
      ensures mbps == Mbps(size, finish - start) && mbps >= 0.0
      ensures downloadSpeeds == old(downloadSpeeds) + [mbps] && avgDownload == Mean(downloadSpeeds)
      ensures numQueries == old(numQueries) + 1
      ensures uploadSpeeds == old(uploadSpeeds) && avgUpload == old(avgUpload) && currentTime == old(currentTime)
    {
      var duration := finish - start;
      mbps := Mbps(size, duration);
      MbpsSign(size, duration);
      downloadSpeeds := downloadSpeeds + [mbps];
      if downloadSpeeds != [] {
        MeanAtLeast(downloadSpeeds, 0.0);
        avgDownload := Mean(downloadSpeeds);
      }
      numQueries := numQueries + 1;
    }

    /** `upload`: the body's length over the time taken to read it; one upload speed appended, the query counted. */
    method Upload(data: seq<bv8>, start: real, finish: real) returns (reply: UploadReply)
      modifies this
      requires Valid()
      ensures Valid()
      ensures reply == UploadReply(|data|, finish - start, Mbps(|data|, finish - start), 200) && reply.mbps >= 0.0
      ensures uploadSpeeds == old(uploadSpeeds) + [reply.mbps] && avgUpload == Mean(uploadSpeeds)
      ensures numQueries == old(numQueries) + 1
      ensures downloadSpeeds == old(downloadSpeeds) && avgDownload == old(avgDownload) && currentTime == old(currentTime)
    {
      var duration := finish - start;
      var size := |data|;
      var mbps := Mbps(size, duration);
      MbpsSign(size, duration);
      uploadSpeeds := uploadSpeeds + [mbps];
      if uploadSpeeds != [] {
        MeanAtLeast(uploadSpeeds, 0.0);
        avgUpload := Mean(uploadSpeeds);
      }
      numQueries := numQueries + 1;
      reply := UploadReply(size, duration, mbps, 200);
    }
  }
}
