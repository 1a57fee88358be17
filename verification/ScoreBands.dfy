/** The three-colour score classification shared by the consistency check
    and the voice interview screens: green from 80, yellow from 60, red
    below. */
module ScoreBands {

  datatype Band = Green | Yellow | Red

  /** `score >= 80 ? green : score >= 60 ? yellow : red`. */
  function BandOf(score: int): (b: Band)
    ensures b == Green <==> score >= 80
    ensures b == Yellow <==> 60 <= score < 80
    ensures b == Red <==> score < 60
  {
    if score >= 80 then Green else if score >= 60 then Yellow else Red
  }

  function Rank(b: Band): nat {
    match b
    case Red => 0
    case Yellow => 1
    case Green => 2
  }

  /** A higher score never lands in a worse band. */
  lemma BandMonotone(a: int, b: int)
    requires a <= b
    ensures Rank(BandOf(a)) <= Rank(BandOf(b))
  {
  }

  /** The Tailwind text class each band is drawn with. */
  function TextColor(b: Band): string {
    match b
    case Green => "text-green-400"
    case Yellow => "text-yellow-400"
    case Red => "text-red-400"
  }
}
