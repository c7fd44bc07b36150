/**
  The two colour classifiers of the dashboard: the allocation bar's `getColor`
  (src/components/ResourceMonitor.tsx) and the security component's `getStatusInfo`
  (src/components/SecurityStatus.tsx), each reduced to the band it picks.
 */
module Severity {
  import opened Text

  datatype Band = Calm | Caution | Danger

  /** The order of the bands, from calm to danger. */
  function Rank(b: Band): (n: nat)
    ensures n <= 2
  {
    match b
    case Calm => 0
    case Caution => 1
    case Danger => 2
  }

  /** `getColor`: 80 and above is danger, 60 up to 80 is caution, the rest is calm. */
  function ColorFor(value: real): (b: Band)
    ensures b == Danger <==> value >= 80.0
    ensures b == Caution <==> 60.0 <= value < 80.0
    ensures b == Calm <==> value < 60.0
  {
    if value >= 80.0 then Danger
    else if value >= 60.0 then Caution
    else Calm
  }

  /** A larger allocation never gets a calmer band. */
  lemma ColorMonotone(a: real, b: real)
    requires a <= b
    ensures Rank(ColorFor(a)) <= Rank(ColorFor(b))
  {
  }

  const CalmWords: set<string> := {"secure", "active", "verified", "clear"}
  const CautionWords: set<string> := {"warning", "attention"}
  const DangerWords: set<string> := {"breach", "danger", "detected"}

  /** `getStatusInfo`: the `switch` on the lower-cased status; anything it does not list falls
      to the default, which is calm. */
  function StatusBand(status: string): (b: Band)
    ensures b == Danger <==> Lower(status) in DangerWords
    ensures b == Caution <==> Lower(status) in CautionWords
    ensures Lower(status) in CalmWords ==> b == Calm
  {
    var key := Lower(status);
    if key in CalmWords then Calm
    else if key in CautionWords then Caution
    else if key in DangerWords then Danger
    else Calm
  }

  /** Classification ignores letter case: a status and its lower-cased form get the same band,
      and so do any two spellings that differ only in case. */
  lemma StatusIgnoresCase(s1: string, s2: string)
    requires Lower(s1) == Lower(s2)
    ensures StatusBand(s1) == StatusBand(s2)
    ensures StatusBand(s1) == StatusBand(Lower(s1))
  {
    LowerIdempotent(s1);
  }
}
