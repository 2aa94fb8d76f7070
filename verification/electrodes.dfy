/** The fourteen electrode sites of the headset and their names, in the order
    of the channel enumeration `CH_F3 .. CH_F4` (epoc.py lines 37-38). */
module Electrodes {
  import opened Wrappers

  datatype Electrode = F3 | FC5 | AF3 | F7 | T7 | P7 | O1 | O2 | P8 | T8 | F8 | AF4 | FC6 | F4

  /** The channel order: channel i of a sample comes from electrode ChannelOrder[i]. */
  const ChannelOrder: seq<Electrode> := [F3, FC5, AF3, F7, T7, P7, O1, O2, P8, T8, F8, AF4, FC6, F4]

  /** The thread's `channelNames` list, in channel order. */
  const ChannelNames: seq<string> :=
    ["F3", "FC5", "AF3", "F7", "T7", "P7", "O1", "O2", "P8", "T8", "F8", "AF4", "FC6", "F4"]

  /** The name the driver uses for an electrode, as a quality-dict key; it is
      the entry of `channelNames` at the electrode's channel index. */
  function Name(e: Electrode): (r: string)
    ensures r == ChannelNames[Channel(e)]
  {
    match e
    case F3 => "F3"
    case FC5 => "FC5"
    case AF3 => "AF3"
    case F7 => "F7"
    case T7 => "T7"
    case P7 => "P7"
    case O1 => "O1"
    case O2 => "O2"
    case P8 => "P8"
    case T8 => "T8"
    case F8 => "F8"
    case AF4 => "AF4"
    case FC6 => "FC6"
    case F4 => "F4"
  }

  /** The electrode a name refers to, if it is one of the fourteen names. */
  function Parse(s: string): (r: Option<Electrode>)
    ensures r.Some? ==> Name(r.value) == s
    ensures r.None? ==> forall e :: Name(e) != s
  {
    if s == "F3" then Some(F3)
    else if s == "FC5" then Some(FC5)
    else if s == "AF3" then Some(AF3)
    else if s == "F7" then Some(F7)
    else if s == "T7" then Some(T7)
    else if s == "P7" then Some(P7)
    else if s == "O1" then Some(O1)
    else if s == "O2" then Some(O2)
    else if s == "P8" then Some(P8)
    else if s == "T8" then Some(T8)
    else if s == "F8" then Some(F8)
    else if s == "AF4" then Some(AF4)
    else if s == "FC6" then Some(FC6)
    else if s == "F4" then Some(F4)
    else None
  }

  /** Names are distinct, so parsing an electrode's name gives that electrode back. */
  lemma ParseName(e: Electrode)
    ensures Parse(Name(e)) == Some(e)
  {
  }

  /** The channel index `CH_<name>` of an electrode. */
  function Channel(e: Electrode): (i: nat)
    ensures i < |ChannelOrder| && ChannelOrder[i] == e
  {
    match e
    case F3 => 0
    case FC5 => 1
    case AF3 => 2
    case F7 => 3
    case T7 => 4
    case P7 => 5
    case O1 => 6
    case O2 => 7
    case P8 => 8
    case T8 => 9
    case F8 => 10
    case AF4 => 11
    case FC6 => 12
    case F4 => 13
  }

  /** The channel order lists every electrode exactly once. */
  lemma ChannelOrderIsPermutation()
    ensures |ChannelOrder| == 14
    ensures forall e :: e in ChannelOrder
    ensures forall i, j :: 0 <= i < j < |ChannelOrder| ==> ChannelOrder[i] != ChannelOrder[j]
  {
    forall e
      ensures e in ChannelOrder
    {
      var i := Channel(e);
    }
  }
}
