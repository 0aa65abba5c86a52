/**
  A directory of lock-held files (agent_wrap/lib/flock.py): a file per run, held by a live process
  or stale. Two of these are what the sidecar protocol coordinates through.
  */
module LockFiles {
  import opened LaunchProtocol

  class LockDirectory {
    /** Every file in the directory, and whether some live process holds its lock. */
    var files: map<LauncherId, bool>

    constructor ()
      ensures files == map[]
    {
      files := map[];
    }

    ghost function Live(): set<LauncherId>
      reads this
    {
      set id | id in files && files[id]
    }

    /** Non-blocking: refused while another holder has the file, otherwise created and held. */
    method LockAndHold(id: LauncherId) returns (ok: bool)
      modifies this
      ensures ok == (id !in old(Live()))
      ensures files == old(files)[id := true]
      ensures Live() == old(Live()) + {id}
    {
      ok := !(id in files && files[id]);
      if ok {
        files := files[id := true];
      }
    }

    /** Releases what the caller holds, if anything, and unlinks the path either way. */
    method ClearLockHandle(id: LauncherId)
      modifies this
      ensures files == old(files) - {id}
      ensures Live() == old(Live()) - {id}
    {
      files := files - {id};
    }

    /** The kernel's part in a crash: the file stays, its lock does not. */
    method HolderDies(id: LauncherId)
      modifies this
      ensures files.Keys == old(files).Keys
      ensures Live() == old(Live()) - {id}
    {
      if id in files {
        files := files[id := false];
      }
    }

    /** The teardown predicate: who is live besides `exclude`; stale files are reaped on the way. */
    method AnyLiveLocks(exclude: set<LauncherId>) returns (live: bool)
      modifies this
      ensures live == (Live() - exclude != {})
      ensures Live() == old(Live())
      ensures files == map id | id in old(files) && (old(files)[id] || id in exclude) :: old(files)[id]
    {
      live := false;
      var paths := files.Keys;
      ghost var was := files;
      while paths != {}
        invariant paths <= was.Keys
        invariant live <==> exists id :: id in was && id !in paths && id !in exclude && was[id]
        invariant files == map id | id in was && (id in paths || was[id] || id in exclude) :: was[id]
        decreases paths
      {
        var path :| path in paths;
        paths := paths - {path};
        if path !in exclude {
          if files[path] {
            live := true;
          } else {
            files := files - {path};
          }
        }
      }
      assert files == map id | id in was && (was[id] || id in exclude) :: was[id];
    }

    /** The reporting twin: names every live holder and reaps nothing. */
    method LiveLockIds() returns (live: set<LauncherId>)
      ensures live == Live()
    {
      live := {};
      var paths := files.Keys;
      while paths != {}
        invariant paths <= files.Keys
        invariant live == set id | id in files && id !in paths && files[id]
        decreases paths
      {
        var path :| path in paths;
        paths := paths - {path};
        if files[path] {
          live := live + {path};
        }
      }
    }
  }

  /** A container's registration directory mirrors the protocol's registrations on it. */
  ghost predicate Mirrors(d: LockDirectory, s: State, c: Container)
    reads d
  {
    d.Live() == set r | r in s.regs && r.container == c :: r.owner
  }

  /** So walking the directory answers the protocol's question: may `self` stop `c`? */
  method HasLiveRunnersOnDisk(d: LockDirectory, ghost s: State, ghost c: Container, self: LauncherId)
    returns (live: bool)
    requires Mirrors(d, s, c)
    modifies d
    ensures live == HasLiveRunners(s, c, self) && Mirrors(d, s, c)
  {
    live := d.AnyLiveLocks({self});
    assert live ==> HasLiveRunners(s, c, self) by {
      if id :| id in d.Live() - {self} {
        var r :| r in s.regs && r.container == c && r.owner == id;
      }
    }
    assert HasLiveRunners(s, c, self) ==> live by {
      if r :| r in s.regs && r.container == c && r.owner != self {
        assert r.owner in d.Live() - {self};
      }
    }
  }
}
