/** The channel half of the shared-memory manager as an object: the table of market-data
    channels and their reader tables, updated in place. */
module MarketChannels {
  import opened Basics
  import opened MasterTypes
  import opened MasterSteps

  class ShmManager {
    var channels: map<Name, Channel>

    constructor ()
      ensures channels == map[]
    {
      channels := map[];
    }

    /** Opens the channel of a source that is about to run. When the page size has changed the
        channel is reset, unless a live strategy is bound to the source: then it throws. */
    method CreateMdChannel(source: Name, size: nat, boundLive: bool) returns (threw: bool)
      modifies this
      ensures threw <==> !AlreadyOpen(old(channels), source) && NeedsReset(old(channels), source, size) && boundLive
      ensures channels == if threw then old(channels) else MasterSteps.CreateMdChannel(old(channels), source, size)
    {
      if source in channels && channels[source].status.MdRunning? && channels[source].meta.Some? { return false; }
      var reset := source in channels && channels[source].meta.Some? && channels[source].lastPageSize > 0
                   && channels[source].lastPageSize != size;
      var first := source !in channels;
      if reset {
        if boundLive { return true; }
        channels := channels[source := channels[source].(meta := None)];
      }
      var readers: set<Name> := {};
      if !(reset || source !in channels || channels[source].meta.None?) { readers := channels[source].meta.value; }

      if first || reset { readers := {}; }
      channels := channels[source := Channel(MdRunning, false, size, Some(readers))];
      assert channels == old(channels)[source := channels[source]];
      return false;
    }

    method CloseMdChannel(source: Name)
      modifies this
      ensures channels == MasterSteps.CloseMdChannel(old(channels), source)
    {
      if source !in channels { return; }
      channels := channels[source := channels[source].(ready := false, status := MdStopped)];
    }

    method TombstoneMdChannel(source: Name)
      modifies this
      ensures channels == MasterSteps.TombstoneMdChannel(old(channels), source)
    {
      if source !in channels { return; }
      channels := channels[source := channels[source].(ready := false, status := MdTombstone)];
    }

    /** A STARTED frame counts only for a running channel whose metadata is held. */
    method MarkReady(source: Name) returns (accepted: bool)
      modifies this
      ensures accepted <==> source in old(channels) && old(channels)[source].meta.Some? && old(channels)[source].status.MdRunning?
      ensures channels == if accepted then old(channels)[source := old(channels)[source].(ready := true)] else old(channels)
    {
      if source !in channels || channels[source].meta.None? { return false; }
      if !channels[source].status.MdRunning? { return false; }
      channels := channels[source := channels[source].(ready := true)];
      return true;
    }

    method PreRegister(strategy: Name, source: Name)
      modifies this
      ensures channels == MasterSteps.PreRegister(old(channels), strategy, source)
    {
      if source !in channels || channels[source].meta.None? || !channels[source].status.MdRunning? || !channels[source].ready { return; }
      channels := channels[source := channels[source].(meta := Some(channels[source].meta.value + {"stg." + strategy}))];
    }

    /** registered: whether the subscriber names a registered process. */
    method HandleReaderRegister(source: Name, subscriber: Name, registered: bool) returns (ok: bool)
      modifies this
      ensures ok <==> registered && SourceReady(old(channels), source)
      ensures channels == if ok then old(channels)[source := WithReader(old(channels)[source], subscriber)] else old(channels)
    {
      if !registered { return false; }
      if source !in channels || channels[source].status.MdTombstone? { return false; }
      if !channels[source].status.MdRunning? || channels[source].meta.None? { return false; }
      if !channels[source].ready { return false; }
      channels := channels[source := channels[source].(meta := Some(channels[source].meta.value + {subscriber}))];
      return true;
    }

    /** Unregistering from a channel that is gone succeeds without effect. */
    method HandleReaderUnregister(source: Name, subscriber: Name, registered: bool) returns (ok: bool)
      modifies this
      ensures ok <==> registered
      ensures channels ==
              if registered && source in old(channels) && !old(channels)[source].status.MdTombstone? && old(channels)[source].meta.Some?
              then old(channels)[source := WithoutReader(old(channels)[source], subscriber)] else old(channels)
    {
      if !registered { return false; }
      if source !in channels || channels[source].status.MdTombstone? || channels[source].meta.None? { return true; }
      channels := channels[source := channels[source].(meta := Some(channels[source].meta.value - {subscriber}))];
      return true;
    }

    method RemoveReaderFromAll(reader: Name)
      modifies this
      ensures channels == RemoveReaderEverywhere(old(channels), reader)
    {
      var left := channels.Keys;
      while left != {}
        invariant left <= old(channels).Keys && channels.Keys == old(channels).Keys
        invariant forall c :: c in channels ==>
                    channels[c] == if c in left then old(channels)[c] else WithoutReader(old(channels)[c], reader)
        decreases |left|
      {
        var c :| c in left;
        left := left - {c};
        if channels[c].meta.Some? {
          channels := channels[c := channels[c].(meta := Some(channels[c].meta.value - {reader}))];
        }
      }
    }
  }
}
