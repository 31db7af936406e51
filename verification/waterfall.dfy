/** The waterfall of a message slot and the candidate positions in it. */
module Waterfalls {

  datatype Protocol = FT4 | FT8

  /** One byte of magnitude. */
  type Magnitude = m: nat | m < 256

  /** Magnitudes by block, time subdivision, frequency subdivision and bin. */
  datatype Waterfall = Waterfall(numBlocks: nat, numBins: nat, timeOsr: nat, freqOsr: nat, mag: seq<Magnitude>,
                                 blockStride: nat, protocol: Protocol)
  {
    predicate Valid() {
      blockStride == timeOsr * freqOsr * numBins && |mag| == numBlocks * blockStride
    }

    function NumTones(): nat {
      if protocol == FT4 then 4 else 8
    }
  }

  datatype Candidate = Candidate(score: int, timeOffset: int, freqOffset: nat, timeSub: nat, freqSub: nat) {
    predicate Fits(wf: Waterfall) {
      timeSub < wf.timeOsr && freqSub < wf.freqOsr && freqOffset + wf.NumTones() <= wf.numBins
    }
  }
}
