/** The US 802.11ah channel plan: which channel numbers exist at which bandwidth.
  * Models app/halow_channel_plan.py and the channel constants of app/config.py. */
module HalowChannelPlan {

  const CHANNELS_1MHZ: seq<int> :=
    [3, 5, 7, 9, 11, 13, 15, 17, 19, 21, 23, 25, 27, 29, 31, 33, 35, 37, 39, 41, 43, 45, 47, 49]
  const CHANNELS_2MHZ: seq<int> := [6, 10, 14, 18, 22, 26, 30, 34, 38, 42, 46]
  const CHANNELS_4MHZ: seq<int> := [16, 24, 32, 40]
  const CHANNELS_8MHZ: seq<int> := [12, 28, 44]

  const WIFI24_CHANNELS: seq<int> := [1, 6, 11]

  /** Every channel the plan knows, at any bandwidth. */
  const ALL_CHANNELS: seq<int> := CHANNELS_1MHZ + CHANNELS_2MHZ + CHANNELS_4MHZ + CHANNELS_8MHZ

  function ValidChannels(bandwidthMhz: int): seq<int> {
    if bandwidthMhz == 1 then CHANNELS_1MHZ
    else if bandwidthMhz == 2 then CHANNELS_2MHZ
    else if bandwidthMhz == 4 then CHANNELS_4MHZ
    else if bandwidthMhz == 8 then CHANNELS_8MHZ
    else []
  }

  predicate IsValid(channel: int, bandwidthMhz: int) {
    channel in ValidChannels(bandwidthMhz)
  }

  ghost predicate Distinct(s: seq<int>) {
    forall i, j :: 0 <= i < j < |s| ==> s[i] != s[j]
  }

  /** A channel number names its bandwidth: the per-bandwidth lists share no channel. */
  lemma BandwidthIsDetermined(channel: int, bw1: int, bw2: int)
    requires IsValid(channel, bw1) && IsValid(channel, bw2)
    ensures bw1 == bw2
  {
    ResidueOfBandwidth(channel, bw1);
    ResidueOfBandwidth(channel, bw2);
  }

  /** Which bandwidth a channel number can belong to. */
  function BandwidthByResidue(channel: int): int {
    if channel % 2 == 1 then 1 else if channel % 4 == 2 then 2 else if channel % 8 == 0 then 4 else 8
  }

  lemma ResidueOfBandwidth(channel: int, bandwidthMhz: int)
    requires IsValid(channel, bandwidthMhz)
    ensures bandwidthMhz == BandwidthByResidue(channel)
  {
    if bandwidthMhz == 1 {
      OneMegahertzIsOdd(channel);
    }
  }

  /** The list counts up from `first` to `last` in steps of `step`. */
  ghost predicate CountsUp(list: seq<int>, first: int, step: int, last: int) {
    list != [] && list[|list| - 1] == last && forall i :: 0 <= i < |list| ==> list[i] == first + step * i
  }

  /** Each list steps through the band by twice its bandwidth in half-MHz channel numbers, without the outermost
    * channels the radio does not take; 2.4GHz channels do not overlap five apart. */
  lemma ListsStepThroughTheBand()
    ensures CountsUp(ValidChannels(1), 3, 2, 49) && CountsUp(ValidChannels(2), 6, 4, 46)
    ensures CountsUp(ValidChannels(4), 16, 8, 40) && CountsUp(ValidChannels(8), 12, 16, 44)
    ensures CountsUp(WIFI24_CHANNELS, 1, 5, 11)
    ensures forall bandwidth :: bandwidth !in {1, 2, 4, 8} ==> ValidChannels(bandwidth) == []
  {
    forall i | 0 <= i < |CHANNELS_1MHZ| ensures CHANNELS_1MHZ[i] == 3 + 2 * i { OneMegahertzAt(i); }
    assert forall i :: 0 <= i < |CHANNELS_2MHZ| ==> CHANNELS_2MHZ[i] == 6 + 4 * i;
    assert forall i :: 0 <= i < |CHANNELS_4MHZ| ==> CHANNELS_4MHZ[i] == 16 + 8 * i;
    assert forall i :: 0 <= i < |CHANNELS_8MHZ| ==> CHANNELS_8MHZ[i] == 12 + 16 * i;
  }

  /** No list offers a channel twice, so a list's length counts its channels. */
  lemma ListsAreDistinct(bandwidthMhz: int)
    ensures Distinct(ValidChannels(bandwidthMhz))
    ensures Distinct(WIFI24_CHANNELS)
  {
    ListsStepThroughTheBand();
  }

  lemma OneMegahertzAt(i: nat)
    requires i < |CHANNELS_1MHZ|
    ensures CHANNELS_1MHZ[i] == 2 * i + 3
  {
  }

  lemma OneMegahertzIsOdd(channel: int)
    ensures channel in CHANNELS_1MHZ ==> channel % 2 == 1
  {
    if channel in CHANNELS_1MHZ {
      var i :| 0 <= i < |CHANNELS_1MHZ| && CHANNELS_1MHZ[i] == channel;
      OneMegahertzAt(i);
    }
  }

  /** The plan has exactly the union of the four lists: 42 entries. */
  lemma PlanSize(channel: int, bandwidthMhz: int)
    ensures |ALL_CHANNELS| == 42
    ensures IsValid(channel, bandwidthMhz) ==> channel in ALL_CHANNELS
    ensures IsValid(channel, bandwidthMhz) || channel in WIFI24_CHANNELS ==> 1 <= channel <= 200
  {
  }

  /** Every channel of the plan passes the agent's plausibility check. */
  lemma PlanIsPlausible(channel: int)
    requires channel in ALL_CHANNELS || channel in WIFI24_CHANNELS
    ensures 1 <= channel <= 200
  {
  }
}
