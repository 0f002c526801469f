/** Sort keys of strata: encoding a stratum loses nothing, so decoding a key can never fail. */
module ComparisonKeys {
  import opened Prelude
  import opened Records
  import opened Trimming
  import opened Comparison

  datatype StratumKey = StratumKey(direction: nat, band: nat, mode: string, kind: nat, source: nat)

  function BandRank(band: Band): nat {
    match band
    case M160 => 0 case M80 => 1 case M60 => 2 case M40 => 3 case M30 => 4 case M20 => 5
    case M17 => 6 case M15 => 7 case M12 => 8 case M10 => 9 case M6 => 10 case M2 => 11
  }

  function BandFromRank(rank: nat): Band {
    match rank
    case 0 => M160 case 1 => M80 case 2 => M60 case 3 => M40 case 4 => M30 case 5 => M20
    case 6 => M17 case 7 => M15 case 8 => M12 case 9 => M10 case 10 => M6 case _ => M2
  }

  function SourceRank(source: RecordSource): nat {
    match source
    case Operator => 0 case WsjtxUdp => 1 case WsjtxLog => 2 case Wsprnet => 3 case WsprLive => 4
    case ImportedFile => 5 case RigAdapter => 6 case NoaaSwpc => 7 case Derived => 8
  }

  function SourceFromRank(rank: nat): RecordSource {
    match rank
    case 0 => Operator case 1 => WsjtxUdp case 2 => WsjtxLog case 3 => Wsprnet case 4 => WsprLive
    case 5 => ImportedFile case 6 => RigAdapter case 7 => NoaaSwpc case _ => Derived
  }

  function StratumKeyOf(s: Stratum): StratumKey {
    StratumKey(if s.direction == Transmit then 0 else 1, BandRank(s.band), s.mode,
               match s.kind { case LocalDecode => 0 case PublicReport => 1 case ImportedSpot => 2 },
               SourceRank(s.source))
  }

  /** `None` stands for a key whose mode is not a normalized one. */
  function StratumFromKey(k: StratumKey): Option<Stratum> {
    match NormalizeMode(k.mode)
    case None => None
    case Some(mode) =>
      Some(Stratum(if k.direction == 0 then Transmit else Receive, BandFromRank(k.band), mode,
                   if k.kind == 0 then LocalDecode else if k.kind == 1 then PublicReport else ImportedSpot,
                   SourceFromRank(k.source)))
  }

  // ----- normalizing a mode twice -----

  lemma UpperKeepsClass(c: char)
    ensures IsWhitespace(Upper(c)) == IsWhitespace(c) && IsControl(Upper(c)) == IsControl(c)
              && Upper(Upper(c)) == Upper(c)
  {
  }

  /** A normalized mode is already normalized. */
  lemma NormalizedModesStay(mode: string)
    ensures NormalizeMode(mode).Some? ==> NormalizeMode(NormalizeMode(mode).value) == NormalizeMode(mode)
  {
    if NormalizeMode(mode).Some? {
      var value := Trim(mode);
      var upper := AsciiUpper(value);
      TrimIsTheMiddle(mode);
      hide IsWhitespace, IsControl, Upper, TrimStart, TrimEnd, Trim;
      forall c
        ensures IsWhitespace(Upper(c)) == IsWhitespace(c) && IsControl(Upper(c)) == IsControl(c)
                  && Upper(Upper(c)) == Upper(c)
      {
        UpperKeepsClass(c);
      }
      TrimmedIffClean(upper);
      assert AsciiUpper(upper) == upper;
    }
  }

  /** The strata of observations decode from their keys, and only equal strata share a key. */
  lemma KeysRoundTrip(callsign: string, o: Observation)
    requires PathKeyOf(callsign, o).Some?
    ensures var s := PathKeyOf(callsign, o).value.stratum;
            StratumFromKey(StratumKeyOf(s)) == Some(s)
  {
    hide NormalizeMode, PathIdentity;
    NormalizedModesStay(o.mode.value);
  }

  // ----- roles -----

  function Opposite(path: Option<(Direction, string)>): Option<(Direction, string)> {
    match path
    case None => None
    case Some((direction, remote)) => Some((if direction == Transmit then Receive else Transmit, remote))
  }

  /** Exchanging reporter and heard station keeps the remote station and reverses the direction. */
  lemma RolesReverseDirection(callsign: string, o: Observation)
    ensures PathIdentity(callsign, o.(reporterCall := o.heardCall, heardCall := o.reporterCall))
              == Opposite(PathIdentity(callsign, o))
  {
    hide AsciiUpper, Trim;
  }
}
