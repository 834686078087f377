/** Recovering full timestamps from stamps that wrap every 4096 seconds. */
module TimestampUnwrap {

  const SECOND := 1_000_000
  const WRAP_SECONDS := 4096
  const WRAP := WRAP_SECONDS * SECOND

  /** The stamp the kernel gives to a moment, in microseconds. */
  function Stamp(moment: int): int {
    (moment / SECOND % WRAP_SECONDS) * SECOND + moment % SECOND
  }

  function Unwrapped(stamp: int, reference: int): int {
    var full := reference / WRAP * WRAP + stamp;
    if full > reference + SECOND then full - WRAP
    else if full < reference - WRAP + SECOND then full + WRAP
    else full
  }

  /** Stamps are in microseconds, the reference and the result in nanoseconds. */
  method UnwrapTimestamp(usbmonUs: int, referenceNs: int) returns (ns: int)
    ensures ns == Unwrapped(usbmonUs, referenceNs / 1000) * 1000
  {
    var refUs := referenceNs / 1000;
    var wrapUs := 4096 * 1_000_000;
    var epochBase := refUs / wrapUs * wrapUs;
    var fullUs := epochBase + usbmonUs;
    if fullUs > refUs + 1_000_000 {
      fullUs := fullUs - wrapUs;
    } else if fullUs < refUs - wrapUs + 1_000_000 {
      fullUs := fullUs + wrapUs;
    }
    ns := fullUs * 1000;
  }

  lemma StampIsRemainder(moment: int)
    ensures Stamp(moment) == moment % 4_096_000_000
  {
  }

  /**
   Whatever the stamp, the result has it and lies from one wrap less a second before to a second after
   the reference.
   */
  lemma UnwrapWindow(stamp: int, reference: int)
    requires 0 <= stamp < 4_096_000_000
    ensures var t := Unwrapped(stamp, reference);
            t % 4_096_000_000 == stamp && reference - 4_095_000_000 <= t <= reference + 1_000_000
  {
    var epoch := reference / WRAP;
    Residue(epoch - 1, stamp);
    Residue(epoch, stamp);
    Residue(epoch + 1, stamp);
  }

  /** The same in nanoseconds, to the microsecond below the reference. */
  lemma WindowInNanoseconds(stamp: int, referenceNs: int)
    requires 0 <= stamp < 4_096_000_000
    ensures var ns := Unwrapped(stamp, referenceNs / 1000) * 1000;
            && (ns / 1000) % 4_096_000_000 == stamp
            && referenceNs - 1000 < ns + 4_095_000_000_000 && ns <= referenceNs + 1_000_000_000
  {
    UnwrapWindow(stamp, referenceNs / 1000);
    hide Unwrapped;
    var t := Unwrapped(stamp, referenceNs / 1000);
    assert t * 1000 / 1000 == t;
  }

  lemma Residue(epoch: int, stamp: int)
    requires 0 <= stamp < WRAP
    ensures (epoch * WRAP + stamp) % WRAP == stamp
  {
    var t := epoch * WRAP + stamp;
    assert t / WRAP == epoch;
  }

  /**
   Unwrapping the stamp of a moment gives that moment back iff it lies strictly inside the window,
   or on one of the window's ends and in the same epoch as the reference.
   */
  lemma UnwrapExactIff(moment: int, reference: int)
    ensures Unwrapped(Stamp(moment), reference) == moment <==>
              || reference - 4_095_000_000 < moment < reference + 1_000_000
              || (moment in {reference - 4_095_000_000, reference + 1_000_000}
                  && moment / 4_096_000_000 == reference / 4_096_000_000)
  {
  }
}
