/**
 * The throughput formatter: picks one of four units over powers of 1024 and
 * shows the rate as the quotient in that unit. The source renders the
 * quotient with one decimal place; that decimal rendering is kept abstract,
 * so a formatted speed is the pair (quotient, unit).
 */
module FormatSpeed {

  datatype Unit = BytesPerSec | KiloBytesPerSec | MegaBytesPerSec | GigaBytesPerSec

  /** What is shown: `value.toFixed(1)` followed by the unit's suffix. */
  datatype Formatted = Formatted(value: real, unit: Unit)

  const Kibi: real := 1024.0
  const Mebi: real := 1024.0 * 1024.0
  const Gibi: real := 1024.0 * 1024.0 * 1024.0

  /** The unit's suffix as the widget prints it after the number. */
  function Suffix(u: Unit): string {
    match u
    case BytesPerSec => " B/s"
    case KiloBytesPerSec => " KB/s"
    case MegaBytesPerSec => " MB/s"
    case GigaBytesPerSec => " GB/s"
  }

  /** Position of a unit in the ladder B/s < KB/s < MB/s < GB/s. */
  function Rank(u: Unit): nat {
    match u
    case BytesPerSec => 0
    case KiloBytesPerSec => 1
    case MegaBytesPerSec => 2
    case GigaBytesPerSec => 3
  }

  /**
   * formatSpeed: each tier compares the quotient computed so far with 1024
   * and divides once more when it is not below. The contract states the
   * choice over the original byte rate instead.
   */
  function FormatSpeed(bytesPerSecond: real): (r: Formatted)
    ensures bytesPerSecond < Kibi ==> r == Formatted(bytesPerSecond, BytesPerSec)
    ensures Kibi <= bytesPerSecond < Mebi ==>
      r == Formatted(bytesPerSecond / Kibi, KiloBytesPerSec) && 1.0 <= r.value < 1024.0
    ensures Mebi <= bytesPerSecond < Gibi ==>
      r == Formatted(bytesPerSecond / Mebi, MegaBytesPerSec) && 1.0 <= r.value < 1024.0
    ensures Gibi <= bytesPerSecond ==>
      r == Formatted(bytesPerSecond / Gibi, GigaBytesPerSec) && 1.0 <= r.value
  {
    if bytesPerSecond < 1024.0 then
      Formatted(bytesPerSecond, BytesPerSec)
    else
      var kilobytesPerSecond := bytesPerSecond / 1024.0;
      if kilobytesPerSecond < 1024.0 then
        Formatted(kilobytesPerSecond, KiloBytesPerSec)
      else
        var megabytesPerSecond := kilobytesPerSecond / 1024.0;
        if megabytesPerSecond < 1024.0 then
          Formatted(megabytesPerSecond, MegaBytesPerSec)
        else
          Formatted(megabytesPerSecond / 1024.0, GigaBytesPerSec)
  }

  /** The tier as a function of the byte rate alone: each unit is chosen exactly on its band. */
  lemma TierBands(b: real)
    ensures FormatSpeed(b).unit == BytesPerSec <==> b < Kibi
    ensures FormatSpeed(b).unit == KiloBytesPerSec <==> Kibi <= b < Mebi
    ensures FormatSpeed(b).unit == MegaBytesPerSec <==> Mebi <= b < Gibi
    ensures FormatSpeed(b).unit == GigaBytesPerSec <==> Gibi <= b
  {
  }

  /** A larger rate never gets a smaller unit. */
  lemma {:induction false} TierMonotone(b1: real, b2: real)
    requires b1 <= b2
    ensures Rank(FormatSpeed(b1).unit) <= Rank(FormatSpeed(b2).unit)
  {
    TierBands(b1);
    TierBands(b2);
  }

  /** The shown value times the unit's size gives back the byte rate. */
  lemma ValueScalesBack(b: real)
    ensures FormatSpeed(b).value * UnitSize(FormatSpeed(b).unit) == b
  {
  }

  /** Bytes in one of the unit. */
  function UnitSize(u: Unit): (n: real)
    ensures 1.0 <= n
  {
    match u
    case BytesPerSec => 1.0
    case KiloBytesPerSec => Kibi
    case MegaBytesPerSec => Mebi
    case GigaBytesPerSec => Gibi
  }

  /** The boundary cases: 0 B/s, 1023 B/s, 1.0 KB/s, 1.0 MB/s, 1.0 GB/s, with the suffix each prints. */
  lemma BoundaryExamples()
    ensures FormatSpeed(0.0) == Formatted(0.0, BytesPerSec)
    ensures FormatSpeed(1023.0).unit == BytesPerSec
    ensures FormatSpeed(1024.0) == Formatted(1.0, KiloBytesPerSec)
    ensures FormatSpeed(1024.0 * 1024.0) == Formatted(1.0, MegaBytesPerSec)
    ensures FormatSpeed(1024.0 * 1024.0 * 1024.0) == Formatted(1.0, GigaBytesPerSec)
    ensures Suffix(FormatSpeed(1023.0).unit) == " B/s"
    ensures Suffix(FormatSpeed(1024.0).unit) == " KB/s"
    ensures Suffix(FormatSpeed(1024.0 * 1024.0).unit) == " MB/s"
    ensures Suffix(FormatSpeed(1024.0 * 1024.0 * 1024.0).unit) == " GB/s"
  {
  }
}
