/** The channel table of an event loop, indexed by descriptor, and the kernel's
    interest set that epoll keeps beside it. */
module FdTable {
  import opened Options

  const INITIAL_CHANNELS: nat := 1024

  /** What a channel asks the kernel for. */
  datatype Interest = Interest(reading: bool, writing: bool)

  class EPollFdEventManager {
    var channels: array<Option<nat>>  // the channel at each descriptor
    var interest: map<nat, Interest>  // the kernel's side

    ghost predicate Valid()
      reads this, channels
    {
      && channels.Length >= INITIAL_CHANNELS
      && forall fd: nat :: fd in interest <==> Channel(fd).Some?
    }

    ghost function Channel(fd: nat): Option<nat>
      reads this, channels
    {
      if fd < channels.Length then channels[fd] else None
    }

    constructor ()
      ensures Valid() && fresh(channels) && forall fd: nat :: Channel(fd) == None
    {
      channels := new Option<nat>[INITIAL_CHANNELS](_ => None);
      interest := map[];
    }

    /** The table grows to twice the descriptor, which is always enough. A free
        slot is never refused by the kernel. */
    method Add(fd: nat, channel: nat, events: Interest)
      requires Valid() && Channel(fd) == None
      modifies this, channels
      ensures Valid() && (channels == old(channels) || fresh(channels))
      ensures Channel(fd) == Some(channel) && forall i: nat :: i != fd ==> Channel(i) == old(Channel(i))
      ensures interest == old(interest)[fd := events] && fd !in old(interest)
    {
      assert Channel(fd).None?;
      if channels.Length <= fd {
        var grown := new Option<nat>[fd * 2](_ => None);
        forall i | 0 <= i < channels.Length {
          grown[i] := channels[i];
        }
        channels := grown;
      }
      channels[fd] := Some(channel);
      interest := interest[fd := events];
      assert forall i: nat :: i != fd ==> Channel(i) == old(Channel(i));
    }

    /** `EPOLL_CTL_MOD` on a registered descriptor. */
    method Update(fd: nat, events: Interest)
      requires Valid() && Channel(fd).Some?
      modifies this`interest
      ensures Valid() && fd in old(interest) && interest == old(interest)[fd := events]
    {
      assert Channel(fd).Some?;
      interest := interest[fd := events];
    }

    method Cancel(fd: nat)
      requires Valid() && Channel(fd).Some?
      modifies this`interest, channels
      ensures Valid() && fd in old(interest) && interest == old(interest) - {fd}
      ensures Channel(fd) == None && forall i: nat :: i != fd ==> Channel(i) == old(Channel(i))
    {
      assert Channel(fd).Some?;
      interest := interest - {fd};
      channels[fd] := None;
      assert forall i: nat :: i != fd ==> Channel(i) == old(Channel(i));
    }
  }
}
