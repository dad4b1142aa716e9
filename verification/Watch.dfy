/** The single-value watch channel that carries the shutdown signal: a version, and what each receiver has seen. */
module Watch {
  import opened Prelude

  /** The sender's side: how often it has sent, and whether it has been dropped. */
  datatype Signal = Signal(version: nat, closed: bool)

  /** `changed()` completes at once: there is an unseen version, or no sender is left. */
  predicate Ready(signal: Signal, seen: nat) {
    signal.version != seen || signal.closed
  }

  class Channel {
    var signal: Signal

    constructor ()
      ensures signal == Signal(0, false)
    {
      signal := Signal(0, false);
    }

    method Send()
      modifies this
      ensures signal == old(signal).(version := old(signal).version + 1)
    {
      signal := signal.(version := signal.version + 1);
    }

    method DropSender()
      modifies this
      ensures signal == old(signal).(closed := true)
    {
      signal := signal.(closed := true);
    }
  }

  class Receiver {
    const channel: Channel
    var seen: nat

    constructor (channel: Channel, seen: nat)
      ensures this.channel == channel && this.seen == seen
    {
      this.channel, this.seen := channel, seen;
    }

    predicate IsReady()
      reads this, channel
    {
      Ready(channel.signal, seen)
    }

    /** A clone has seen what its original had seen. */
    method Clone() returns (r: Receiver)
      ensures fresh(r) && r.channel == channel && r.seen == seen
    {
      r := new Receiver(channel, seen);
    }

    /** The completion of `changed()`: Ok for an unseen version, Err once the sender is gone. */
    method Changed() returns (ok: bool)
      requires IsReady()
      modifies this
      ensures ok == (old(seen) != channel.signal.version)
      ensures seen == channel.signal.version
    {
      ok := seen != channel.signal.version;
      seen := channel.signal.version;
    }
  }
}
