/** findExistingProcesses (main/process.go): the scan of /proc, and what a complete listing means for the
    takeover protocol. */
module Discovery {
  import opened Settings
  import opened Takeover

  /** An entry of /proc: whether it is a directory, and the number its name is, if it is one. */
  datatype Entry = Entry(isDir: bool, number: Option<nat>)

  /** The entry is the directory of another process that runs this program. */
  predicate Counts(e: Entry, self: Pid, isAHE: Pid -> bool) {
    e.isDir && e.number.Some? && e.number.value != self && isAHE(e.number.value)
  }

  function Listed(entries: seq<Entry>, self: Pid, isAHE: Pid -> bool): seq<Pid> {
    if entries == [] then []
    else
      var e := entries[|entries| - 1];
      Listed(entries[..|entries| - 1], self, isAHE) + if Counts(e, self, isAHE) then [e.number.value] else []
  }

  /** The scan; `listing` is None if /proc cannot be read. */
  method FindExisting(listing: Option<seq<Entry>>, self: Pid, isAHE: Pid -> bool) returns (found: Option<seq<Pid>>)
    ensures found == None <==> listing == None
    ensures found.Some? ==> found.value == Listed(listing.value, self, isAHE)
  {
    if listing == None {
      return None;
    }
    var entries, pids := listing.value, [];
    for i := 0 to |entries|
      invariant pids == Listed(entries[..i], self, isAHE)
    {
      assert entries[..i + 1][..i] == entries[..i];
      var e := entries[i];
      if e.isDir {
        if e.number != None && e.number.value != self {
          if isAHE(e.number.value) {
            pids := pids + [e.number.value];
          }
        }
      }
    }
    assert entries[..|entries|] == entries;
    found := Some(pids);
  }

  /** Exactly the other processes that run this program and have a directory are found. */
  lemma {:induction false} WhoIsFound(entries: seq<Entry>, self: Pid, isAHE: Pid -> bool, p: Pid)
    ensures p in Listed(entries, self, isAHE) <==> p != self && isAHE(p) && Entry(true, Some(p)) in entries
  {
    if entries == [] {
    } else {
      var t, e := entries[..|entries| - 1], entries[|entries| - 1];
      WhoIsFound(t, self, isAHE, p);
      assert entries == t + [e];
    }
  }

  /** So a listing of /proc that has a directory for every live process, which is one of this program,
      is a discovery that the protocol allows and that loses nothing. */
  lemma {:induction false} FullListingLosesNothing(w: World, self: Pid, entries: seq<Entry>, isAHE: Pid -> bool)
    requires w.At(self, Discovering)
    requires forall q :: q in w.procs && w.Live(q) ==> isAHE(q) && Entry(true, Some(q)) in entries
    ensures var a := Discover(self, Some(Listed(entries, self, isAHE)));
            Enabled(false, w, a) && !Loses(w, a)
  {
    var found := Listed(entries, self, isAHE);
    WhoIsFound(entries, self, isAHE, self);
    forall q | q in w.procs && w.Live(q) && q != self ensures q in found {
      WhoIsFound(entries, self, isAHE, q);
    }
  }
}
