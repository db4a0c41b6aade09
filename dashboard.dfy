/**
 * The two display computations of app/dashboard/page.tsx: the shortened wallet
 * address and the "Unlocks in N days" label. The page takes its record from the
 * `user_` entry written at first sign-in, which holds no pooled stake, so the
 * label is stated here for any record rather than for the store's live one.
 */
module Dashboard {
  import opened Wrappers
  import opened Progress

  function Min(a: int, b: int): int { if a <= b then a else b }
  function Max(a: int, b: int): int { if a <= b then b else a }

  /** JavaScript clamps a `substring` bound into [0, n]. */
  function Clamp(i: int, n: nat): (r: nat)
    ensures r <= n
    ensures 0 <= i <= n ==> r == i
  {
    if i < 0 then 0 else if i > n then n else i
  }

  /** JavaScript `s.substring(start, end)`: both bounds clamped, and swapped when start exceeds end. */
  function Substring(s: string, start: int, end: int): (r: string)
    ensures 0 <= start <= end <= |s| ==> r == s[start..end]
  {
    var a := Clamp(start, |s|);
    var b := Clamp(end, |s|);
    if a <= b then s[a..b] else s[b..a]
  }

  /** JavaScript `s.substring(start)`. */
  function SubstringFrom(s: string, start: int): (r: string)
    ensures r == s[Clamp(start, |s|)..]
  {
    Substring(s, start, |s|)
  }

  /**
   * formatWalletAddress: the empty address stays empty; any other keeps at most
   * its first six characters and its last four (fewer when the address is
   * shorter), with "..." between them.
   */
  function FormatWalletAddress(address: string): (r: string)
    ensures address == [] ==> r == []
    ensures address != [] ==>
      r == address[..Min(6, |address|)] + "..." + address[Max(0, |address| - 4)..]
  {
    if address == [] then []
    else Substring(address, 0, 6) + "..." + SubstringFrom(address, |address| - 4)
  }

  /** A full-length address shortens to 13 characters: its first six, "...", its last four. */
  lemma FormatLongAddress(address: string)
    requires 10 <= |address|
    ensures var r := FormatWalletAddress(address);
      && |r| == 13
      && r[..6] == address[..6]
      && r[6..9] == "..."
      && r[9..] == address[|address| - 4..]
  {
  }

  /** A short address is never cut: each of its characters appears in the label. */
  lemma FormatShortAddressKeepsAll(address: string)
    requires 0 < |address| <= 6
    ensures FormatWalletAddress(address)[..|address|] == address
  {
  }

  /**
   * The "Unlocks in N days" label: shown only while tokens are pooled and the
   * end time lies ahead; N is the time left in whole days rounded up, so at
   * least one.
   */
  function UnlockDaysLabel(stakedTokens: int, stakingEndTime: int, now: int): (r: Option<int>)
    ensures r.Some? <==> 0 < stakedTokens && now < stakingEndTime
    ensures r.Some? ==>
      && 1 <= r.value
      && DayMs * (r.value - 1) < stakingEndTime - now <= DayMs * r.value
  {
    if 0 < stakedTokens && now < stakingEndTime then
      Some((stakingEndTime - now + DayMs - 1) / DayMs)
    else None
  }

  /** The label counts down: a later moment never shows more days. */
  lemma UnlockDaysNonIncreasing(stakedTokens: int, stakingEndTime: int, t1: int, t2: int)
    requires t1 <= t2 && UnlockDaysLabel(stakedTokens, stakingEndTime, t2).Some?
    ensures UnlockDaysLabel(stakedTokens, stakingEndTime, t1).Some?
    ensures UnlockDaysLabel(stakedTokens, stakingEndTime, t2).value
         <= UnlockDaysLabel(stakedTokens, stakingEndTime, t1).value
  {
  }
}
