/**
 * The four log levels and their numeric ranks (`LOG_LEVELS`), shared by the
 * extension-host logger and the webview logger, which declare the same table.
 */
module LogLevels {

  datatype Level = Debug | Info | Warn | Error

  /** The rank of a level in `LOG_LEVELS`. */
  function Rank(l: Level): (r: nat)
    ensures r <= 3
    ensures r == 0 <==> l == Debug
    ensures r == 3 <==> l == Error
  {
    match l
    case Debug => 0
    case Info => 1
    case Warn => 2
    case Error => 3
  }

  /** The level's name as written in the source: lower-case ASCII letters, never wider than the five-column level field. */
  function Name(l: Level): (r: string)
    ensures 0 < |r| <= 5
    ensures forall i :: 0 <= i < |r| ==> 'a' <= r[i] <= 'z'
  {
    match l
    case Debug => "debug"
    case Info => "info"
    case Warn => "warn"
    case Error => "error"
  }

  /** `shouldLog`: a message of `level` passes when its rank is at least the threshold's. */
  predicate Passes(level: Level, threshold: Level): (b: bool)
    ensures level == threshold ==> b
    ensures threshold == Debug || level == Error ==> b
    ensures level == Debug && threshold != Debug ==> !b
  {
    Rank(level) >= Rank(threshold)
  }

  /** The ranks order the levels strictly, and distinct levels have distinct ranks. */
  lemma RanksStrictlyOrdered()
    ensures Rank(Debug) < Rank(Info) < Rank(Warn) < Rank(Error)
    ensures forall a: Level, b: Level :: Rank(a) == Rank(b) ==> a == b
  {
  }

  /** The filter is monotone in the level: whatever passes, every higher level passes too. */
  lemma PassesMonotone(lower: Level, higher: Level, threshold: Level)
    requires Rank(lower) <= Rank(higher)
    ensures Passes(lower, threshold) ==> Passes(higher, threshold)
    ensures !Passes(higher, threshold) ==> !Passes(lower, threshold)
  {
  }

  /** `error` passes under every threshold, and the `debug` threshold lets every level through. */
  lemma ErrorAlwaysPasses(level: Level, threshold: Level)
    ensures Passes(Error, threshold)
    ensures Passes(level, Debug)
  {
  }

  /**
   * A threshold admits itself, and it is the least level it admits: two
   * thresholds that admit the same levels are the same threshold, so
   * `setLogLevel` with a different level always changes what is logged.
   */
  lemma ThresholdIsLeastAdmitted(threshold: Level, other: Level)
    ensures Passes(threshold, threshold)
    ensures (forall l :: Passes(l, threshold) <==> Passes(l, other)) ==> other == threshold
  {
    if forall l :: Passes(l, threshold) <==> Passes(l, other) {
      assert Passes(threshold, other) && Passes(other, threshold);
      RanksStrictlyOrdered();
    }
  }
}
