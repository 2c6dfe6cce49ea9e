/**
 What a transfer request is screened against: the regions of venues, the allowlist with its caps and
 cooloffs, and the cap on a single transfer.

 The tamper check is an input of a screening.
 */
module TransferScreen {
  import opened Sums

  const HOUR_MS := 3_600_000

  /**
   A limit or threshold of zero or less is switched off.  `fold` is not configured: it sends characters
   that differ in case only to the same one.
   */
  datatype Config = Config(manualApprovalRequired: bool, maxPerTransferUSD: real, maxDailyUSD: real,
                           maxTransfersPerDay: int, newAddressCooloffH: int, dualApprovalThresholdUSD: real,
                           approvalExpiryH: int, venueRegions: seq<VenueRegion>, allowlist: seq<Listing>,
                           fold: char -> char)

  datatype VenueRegion = VenueRegion(venue: string, region: string, blocked: seq<string>)

  datatype Listing = Listing(address: string, asset: string, entry: Entry)

  /** An allowlist entry: its own cap, and when the address was added, if that can be read. */
  datatype Entry = Entry(maxPerTxUSD: real, addedAt: Date)
  datatype Date = Unknown | At(ms: int)
  datatype Lookup = NotListed | Listed(entry: Entry)

  datatype Request = Request(id: string, toAddress: string, asset: string, amountUSD: real, requestedBy: string,
                             fromVenue: string, toVenue: string, region: string)

  datatype Outcome = Approved | Pending | Denied(code: DenialCode) | StillPending(code: DenialCode)

  datatype DenialCode = ConfigTampered | BlockedRegion | AddressNotAllowlisted | ExceedsPerTxCap | NewAddressCooloff
                      | DailyCountExceeded | DailyNotionalExceeded | NotFound | Expired | DuplicateApprover
                      | SelfApproval | OperatorDenied

  /** Equal but for case. */
  predicate SameText(a: string, b: string, c: Config) {
    |a| == |b| && forall i :: 0 <= i < |a| ==> c.fold(a[i]) == c.fold(b[i])
  }

  // ----- Regions -----------------------------------------------------------------------------

  datatype Found = NoRegion | InRegion(at: VenueRegion)

  /** The last entry for a venue. */
  function RegionOf(regions: seq<VenueRegion>, venue: string, c: Config): Found {
    if regions == [] then NoRegion
    else if SameText(regions[|regions| - 1].venue, venue, c) then InRegion(regions[|regions| - 1])
    else RegionOf(regions[..|regions| - 1], venue, c)
  }

  predicate Blocks(v: VenueRegion, region: string, c: Config) {
    exists k :: 0 <= k < |v.blocked| && SameText(v.blocked[k], region, c)
  }

  /** Either venue blocks the requester's region, or the destination blocks the region of the source. */
  predicate RegionBlocked(req: Request, c: Config) {
    var from, to := RegionOf(c.venueRegions, req.fromVenue, c), RegionOf(c.venueRegions, req.toVenue, c);
    || (from.InRegion? && req.region != "" && Blocks(from.at, req.region, c))
    || (to.InRegion? && req.region != "" && Blocks(to.at, req.region, c))
    || (from.InRegion? && to.InRegion? && Blocks(to.at, from.at.region, c))
  }

  method IsBlocked(v: VenueRegion, region: string, c: Config) returns (blocked: bool)
    ensures blocked <==> Blocks(v, region, c)
  {
    for i := 0 to |v.blocked|
      invariant forall k :: 0 <= k < i ==> !SameText(v.blocked[k], region, c)
    {
      if SameText(v.blocked[i], region, c) {
        return true;
      }
    }
    return false;
  }

  method FindRegions(req: Request, c: Config) returns (from: Found, to: Found)
    ensures from == RegionOf(c.venueRegions, req.fromVenue, c) && to == RegionOf(c.venueRegions, req.toVenue, c)
  {
    var regions := c.venueRegions;
    from, to := NoRegion, NoRegion;
    for i := 0 to |regions|
      invariant from == RegionOf(regions[..i], req.fromVenue, c) && to == RegionOf(regions[..i], req.toVenue, c)
    {
      assert regions[..i + 1][..i] == regions[..i];
      if SameText(regions[i].venue, req.fromVenue, c) {
        from := InRegion(regions[i]);
      }
      if SameText(regions[i].venue, req.toVenue, c) {
        to := InRegion(regions[i]);
      }
    }
    assert regions[..|regions|] == regions;
  }

  method CheckRegionConstraints(req: Request, c: Config) returns (blocked: bool)
    ensures blocked <==> RegionBlocked(req, c)
  {
    if |c.venueRegions| == 0 {
      return false;
    }
    var from, to := FindRegions(req, c);
    blocked := false;
    if from.InRegion? && req.region != "" {
      blocked := IsBlocked(from.at, req.region, c);
    }
    if !blocked && to.InRegion? && req.region != "" {
      blocked := IsBlocked(to.at, req.region, c);
    }
    if !blocked && from.InRegion? && to.InRegion? {
      blocked := IsBlocked(to.at, from.at.region, c);
    }
  }

  // ----- The allowlist -----------------------------------------------------------------------

  predicate Lists(l: Listing, req: Request, c: Config) {
    SameText(l.address, req.toAddress, c) && (l.asset == "*" || SameText(l.asset, req.asset, c))
  }

  /** The first entry for the address and the asset. */
  function LookUp(allowlist: seq<Listing>, req: Request, c: Config): Lookup {
    if allowlist == [] then NotListed
    else if Lists(allowlist[0], req, c) then Listed(allowlist[0].entry)
    else LookUp(allowlist[1..], req, c)
  }

  method FindAllowlistEntry(req: Request, c: Config) returns (r: Lookup)
    ensures r == LookUp(c.allowlist, req, c)
  {
    for i := 0 to |c.allowlist|
      invariant LookUp(c.allowlist, req, c) == LookUp(c.allowlist[i..], req, c)
    {
      assert c.allowlist[i..][1..] == c.allowlist[i + 1..];
      if Lists(c.allowlist[i], req, c) {
        return Listed(c.allowlist[i].entry);
      }
    }
    return NotListed;
  }

  /** Entry k is the first to list the request. */
  predicate ListsFirst(allowlist: seq<Listing>, k: int, req: Request, c: Config) {
    && 0 <= k < |allowlist| && Lists(allowlist[k], req, c)
    && forall j :: 0 <= j < k ==> !Lists(allowlist[j], req, c)
  }

  lemma {:induction false} FirstIsFound(allowlist: seq<Listing>, k: nat, req: Request, c: Config)
    requires ListsFirst(allowlist, k, req, c)
    ensures LookUp(allowlist, req, c) == Listed(allowlist[k].entry)
  {
    if k > 0 {
      assert !Lists(allowlist[0], req, c);
      forall j | 0 <= j < k - 1 ensures !Lists(allowlist[1..][j], req, c) {
        assert allowlist[1..][j] == allowlist[j + 1];
      }
      FirstIsFound(allowlist[1..], k - 1, req, c);
    }
  }

  lemma {:induction false} FoundIsFirst(allowlist: seq<Listing>, req: Request, c: Config) returns (k: nat)
    requires LookUp(allowlist, req, c).Listed?
    ensures ListsFirst(allowlist, k, req, c)
  {
    if Lists(allowlist[0], req, c) {
      k := 0;
    } else {
      k := FoundIsFirst(allowlist[1..], req, c);
      forall j | 0 <= j < k + 1 ensures !Lists(allowlist[j], req, c) {
        assert j > 0 ==> allowlist[1..][j - 1] == allowlist[j];
      }
      k := k + 1;
    }
  }

  /** An entry is found exactly when one lists the request, and then it is that of the first that does. */
  lemma LookUpFindsFirst(allowlist: seq<Listing>, req: Request, c: Config, e: Entry)
    ensures LookUp(allowlist, req, c) == Listed(e) <==>
              exists k :: ListsFirst(allowlist, k, req, c) && allowlist[k].entry == e
  {
    if LookUp(allowlist, req, c) == Listed(e) {
      var k := FoundIsFirst(allowlist, req, c);
      FirstIsFound(allowlist, k, req, c);
    }
    if k :| ListsFirst(allowlist, k, req, c) && allowlist[k].entry == e {
      FirstIsFound(allowlist, k, req, c);
    }
  }

  // ----- The screening -----------------------------------------------------------------------

  function CapFor(entry: Entry, c: Config): real {
    if 0.0 < entry.maxPerTxUSD < c.maxPerTransferUSD then entry.maxPerTxUSD else c.maxPerTransferUSD
  }

  predicate OverCap(amount: real, entry: Entry, c: Config) {
    CapFor(entry, c) > 0.0 && amount > CapFor(entry, c)
  }

  predicate InCooloff(entry: Entry, nowMs: int, c: Config) {
    c.newAddressCooloffH > 0 && entry.addedAt.At? && nowMs < entry.addedAt.ms + c.newAddressCooloffH * HOUR_MS
  }

  /** The gates before the rolling limits: none of them touches the engine. */
  function Screen(nowMs: int, req: Request, tampered: bool, c: Config): (screened: Outcome)
    ensures screened.Approved? || screened.Denied?
  {
    if tampered then Denied(ConfigTampered)
    else if RegionBlocked(req, c) then Denied(BlockedRegion)
    else
      var lookup := LookUp(c.allowlist, req, c);
      if lookup.NotListed? then Denied(AddressNotAllowlisted)
      else if OverCap(req.amountUSD, lookup.entry, c) then Denied(ExceedsPerTxCap)
      else if InCooloff(lookup.entry, nowMs, c) then Denied(NewAddressCooloff)
      else Approved
  }

  method ScreenTransfer(nowMs: int, req: Request, tampered: bool, c: Config) returns (screened: Outcome)
    ensures screened == Screen(nowMs, req, tampered, c)
  {
    if tampered {
      return Denied(ConfigTampered);
    }
    var blocked := CheckRegionConstraints(req, c);
    if blocked {
      return Denied(BlockedRegion);
    }
    var lookup := FindAllowlistEntry(req, c);
    if lookup.NotListed? {
      return Denied(AddressNotAllowlisted);
    }
    if OverCap(req.amountUSD, lookup.entry, c) {
      return Denied(ExceedsPerTxCap);
    }
    if InCooloff(lookup.entry, nowMs, c) {
      return Denied(NewAddressCooloff);
    }
    return Approved;
  }

  /**
   An allowlist entry's own cap decides, whatever the amount, exactly when it is set and not above the
   global cap: without a global cap it is ignored, and a greater one does not override it.
   */
  lemma EntryCapDecidesExactly(entry: Entry, c: Config)
    ensures (forall amount: real :: OverCap(amount, entry, c) <==> amount > entry.maxPerTxUSD)
       <==> 0.0 < entry.maxPerTxUSD <= c.maxPerTransferUSD
  {
    if !(0.0 < entry.maxPerTxUSD <= c.maxPerTransferUSD) {
      var high, low := Max(entry.maxPerTxUSD, c.maxPerTransferUSD) + 1.0, entry.maxPerTxUSD;
      assert c.maxPerTransferUSD <= 0.0 ==> !OverCap(high, entry, c);
      assert 0.0 < c.maxPerTransferUSD < low ==> OverCap(low, entry, c);
      assert low <= 0.0 < c.maxPerTransferUSD ==> !OverCap(c.maxPerTransferUSD, entry, c);
    }
  }

  // ----- Which entries can decide ------------------------------------------------------------

  /** Whatever the later entry lists, the earlier one does. */
  predicate Shadows(earlier: Listing, later: Listing, c: Config) {
    && SameText(earlier.address, later.address, c)
    && (earlier.asset == "*" || (later.asset != "*" && SameText(earlier.asset, later.asset, c)))
  }

  predicate Used(k: int, c: Config) {
    0 <= k < |c.allowlist| && forall j :: 0 <= j < k ==> !Shadows(c.allowlist[j], c.allowlist[k], c)
  }

  /** A text of that length: the same as none of another length. */
  function TextOf(n: nat): (s: string)
    ensures |s| == n
  {
    if n == 0 then "" else TextOf(n - 1) + "x"
  }

  function VenueLength(regions: seq<VenueRegion>): (n: nat)
    ensures forall k :: 0 <= k < |regions| ==> |regions[k].venue| < n
  {
    if regions == [] then 1
    else
      var before := VenueLength(regions[..|regions| - 1]);
      before + |regions[|regions| - 1].venue| + 1
  }

  function AssetLength(allowlist: seq<Listing>): (n: nat)
    ensures forall k :: 0 <= k < |allowlist| ==> |allowlist[k].asset| < n
  {
    if allowlist == [] then 1
    else
      var before := AssetLength(allowlist[..|allowlist| - 1]);
      before + |allowlist[|allowlist| - 1].asset| + 1
  }

  /** A request for the address of entry k, between venues that have no region. */
  function RequestFor(k: nat, id: string, amount: real, c: Config): Request
    requires k < |c.allowlist|
  {
    var l, venue := c.allowlist[k], TextOf(VenueLength(c.venueRegions));
    var asset := if l.asset == "*" then TextOf(AssetLength(c.allowlist)) else l.asset;
    Request(id, l.address, asset, amount, "requester", venue, venue, "")
  }

  lemma {:induction false} LongerHasNoRegion(regions: seq<VenueRegion>, venue: string, c: Config)
    requires forall k :: 0 <= k < |regions| ==> |regions[k].venue| < |venue|
    ensures RegionOf(regions, venue, c).NoRegion?
  {
    if regions != [] {
      LongerHasNoRegion(regions[..|regions| - 1], venue, c);
    }
  }

  lemma RequestIsListed(k: nat, id: string, amount: real, c: Config)
    requires Used(k, c)
    ensures ListsFirst(c.allowlist, k, RequestFor(k, id, amount, c), c)
    ensures !RegionBlocked(RequestFor(k, id, amount, c), c)
  {
    LongerHasNoRegion(c.venueRegions, TextOf(VenueLength(c.venueRegions)), c);
    var req := RequestFor(k, id, amount, c);
    forall j | 0 <= j < k ensures !Lists(c.allowlist[j], req, c) {
      assert !Shadows(c.allowlist[j], c.allowlist[k], c);
    }
  }

  /** An entry decides for some request exactly when no earlier one shadows it. */
  lemma UsedExactly(k: nat, c: Config)
    requires k < |c.allowlist|
    ensures Used(k, c) <==> exists req :: ListsFirst(c.allowlist, k, req, c)
  {
    if Used(k, c) {
      RequestIsListed(k, "", 0.0, c);
    }
    if req :| ListsFirst(c.allowlist, k, req, c) {
      forall j | 0 <= j < k ensures !Shadows(c.allowlist[j], c.allowlist[k], c) {
        assert !Lists(c.allowlist[j], req, c);
      }
    }
  }

  /** What passes the screening is listed by an entry that is used, and within its cap. */
  lemma ScreenedIsUsed(nowMs: int, req: Request, tampered: bool, c: Config) returns (k: nat)
    requires Screen(nowMs, req, tampered, c).Approved?
    ensures Used(k, c) && !OverCap(req.amountUSD, c.allowlist[k].entry, c)
  {
    k := FoundIsFirst(c.allowlist, req, c);
    FirstIsFound(c.allowlist, k, req, c);
    UsedExactly(k, c);
  }

  /** When the entry's cooloff is over. */
  function ReadyAt(entry: Entry, c: Config): int {
    if c.newAddressCooloffH > 0 && entry.addedAt.At? then entry.addedAt.ms + c.newAddressCooloffH * HOUR_MS else 0
  }

  lemma RequestPasses(k: nat, id: string, amount: real, nowMs: int, c: Config)
    requires Used(k, c) && nowMs >= ReadyAt(c.allowlist[k].entry, c) && !OverCap(amount, c.allowlist[k].entry, c)
    ensures Screen(nowMs, RequestFor(k, id, amount, c), false, c).Approved?
  {
    RequestIsListed(k, id, amount, c);
    FirstIsFound(c.allowlist, k, RequestFor(k, id, amount, c), c);
  }
}
