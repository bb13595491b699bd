/** Values shared by both pipeline variants and the report. */
module Media {

  /** One unsigned 8-bit sample of a raw rgb24 frame. */
  type byte = b: int | 0 <= b < 256

  type Hour = h: int | 0 <= h < 24
  type Minute = m: int | 0 <= m < 60
  type Second = s: int | 0 <= s < 60

  /** A capture instant at one-second resolution; `day` numbers calendar days. */
  datatype DateTime = DateTime(day: int, hour: Hour, minute: Minute, second: Second)

  /** One object reported by the detection model: its class name and its confidence. */
  datatype Detection = Detection(name: string, confidence: real)

  /** The exceptions a pipeline step can raise. */
  datatype Error =
    | EmptyPlaylist       // result['entries'][0] on an empty list
    | MissingUrl          // video['url'] on a result without a url
    | NoVideoStream       // None['width'] when the probe lists no video stream
    | FrameSizeMismatch   // numpy reshape of a buffer of the wrong length
    | MissingNameColumn   // groupby('name') on a frame built from no detections

  /** The `name` column of a list of detections. */
  function Names(ds: seq<Detection>): (r: seq<string>)
    ensures |r| == |ds|
    ensures forall i :: 0 <= i < |ds| ==> r[i] == ds[i].name
  {
    seq(|ds|, i requires 0 <= i < |ds| => ds[i].name)
  }
}
