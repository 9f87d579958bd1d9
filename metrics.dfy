/** The banding of the light intensity on the real-time metric card. */
module Metrics {

  /** "GELAP" (dark), "SEDANG" (medium), "TERANG" (bright). */
  datatype Band = Gelap | Sedang | Terang {
    function Rank(): nat {
      match this
      case Gelap => 0
      case Sedang => 1
      case Terang => 2
    }
  }

  /** Below 30 is dark, below 70 medium, anything else bright. */
  function IntensityBand(x: real): (b: Band)
    ensures b == Gelap <==> x < 30.0
    ensures b == Sedang <==> 30.0 <= x < 70.0
    ensures b == Terang <==> 70.0 <= x
  {
    if x < 30.0 then Gelap else if x < 70.0 then Sedang else Terang
  }

  /** More light never gives a darker band. */
  lemma BandMonotone(x: real, y: real)
    requires x <= y
    ensures IntensityBand(x).Rank() <= IntensityBand(y).Rank()
  {
  }
}
