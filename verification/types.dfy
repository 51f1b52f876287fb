/** Values shared by the collectors, the buffers and the routing layer. */
module Types {

  datatype Option<+T> = None | Some(value: T)

  /** `juce::Result`, carrying the value of a successful call. */
  datatype Result<+T> = Ok(value: T) | Fail(message: string)

  function Min(a: int, b: int): (m: int)
    ensures m <= a && m <= b && (m == a || m == b)
  {
    if a <= b then a else b
  }

  /** `sizeof (float)`: every sample slot of a memory block takes four bytes. */
  const BytesPerSample: nat := 4

  /**
   * `juce::AudioBuffer<float>` as the producer pushes it: `numSamples` samples in each
   * channel.
   */
  datatype AudioBuffer = AudioBuffer(numSamples: nat, channels: seq<seq<real>>)

  predicate WellFormed(buf: AudioBuffer) {
    forall ch :: 0 <= ch < |buf.channels| ==> |buf.channels[ch]| == buf.numSamples
  }

  /** The kinds of `juce::var` the settings exchange distinguishes. */
  datatype Var = VDouble(d: real) | VBool(b: bool) | VInt(i: int) | VString(s: string)

  /** `std::complex<float>`. */
  datatype Complex = Complex(re: real, im: real)
}
