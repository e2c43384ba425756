/** NAL units and frames as they pass from the framer to the remuxer. */
module Media {
  import opened Bytes

  const NDR := 1
  const IDR := 5
  const SPS := 7
  const PPS := 8

  /** `NALU`: the payload, and whether its slice header has first_mb_in_slice 0. */
  datatype Nalu = Nalu(payload: ByteString, isfmb: bool)
  {
    function Type(): nat {
      NalType(payload)
    }

    predicate IsVcl() {
      Type() == NDR || Type() == IDR
    }
  }

  /** The low five bits of the first byte; an absent byte counts as 0. */
  function NalType(payload: ByteString): nat {
    if payload == [] then 0 else payload[0] % 32
  }

  datatype VideoFrame = VideoFrame(units: seq<Nalu>, keyFrame: bool, duration: int)

  datatype AudioFrame = AudioFrame(payload: ByteString, duration: int)
}
