/** The in-memory signature that lets a policy run skip loading a table that is already in force.
    SHA-256 is taken as an injective function that never yields the empty text. */
module NftCache {
  import opened Wrappers
  import opened XrayMarks
  import opened NftPolicy

  type Digest = string -> string

  ghost predicate Collisionless(d: Digest) {
    && (forall x, y :: d(x) == d(y) ==> x == y)
    && (forall x :: d(x) != "")
  }

  /** What one attempt to load a table does: the dry run refuses it and the old table stays; the old
      table is deleted but the new one does not load; or the new one is loaded. */
  datatype Attempt = Refused | Lost | Loaded

  class XrayPolicyCache {
    var signature: string
    var table: Option<Script>        // what the kernel holds
    ghost var applied: seq<Limit>    // the clients of the last successful load

    /** A remembered signature belongs to the last load, and the kernel holds that program or, after
        an outside flush, nothing. */
    ghost predicate Valid(d: Digest)
      reads this
    {
      signature != "" ==>
        && signature == d(XraySignature(applied))
        && (table.Some? ==> table.value == XrayScript(applied) || table.value == Legacy(XrayScript(applied)))
    }

    constructor ()
      ensures forall d :: Valid(d)
      ensures signature == "" && table == None
    {
      signature, table, applied := "", None, [];
    }

    method LoadTable(script: Script, attempt: Attempt) returns (ok: bool)
      modifies this`table
      ensures ok == attempt.Loaded?
      ensures table == match attempt { case Refused => old(table) case Lost => None case Loaded => Some(script) }
    {
      match attempt {
        case Refused =>
        case Lost => table := None;
        case Loaded => table := Some(script);
      }
      ok := attempt.Loaded?;
    }

    /** A firewall reload can remove the table behind the panel's back. */
    method OutsideFlush(ghost d: Digest)
      requires Valid(d)
      modifies this`table
      ensures Valid(d) && table == None
    {
      table := None;
    }

    /** `applyXraySpeedPolicy`. Success with a non-empty list means the kernel holds the program, or its
        legacy form, of the last loaded list, and that list has the signature text of this one. It is this
        list when it was loaded now, or when no email in either has a semicolon. A failed load never
        leaves a remembered signature in front of another program. */
    method Apply(limits: seq<Limit>, d: Digest, listOk: bool, deleteOk: bool, first: Attempt, second: Attempt)
      returns (ok: bool)
      requires Collisionless(d) && Valid(d)
      modifies this
      ensures Valid(d)
      ensures limits == [] ==>
        && ok && signature == ""
        && table == (if old(signature) != "" && deleteOk then None else old(table))
      ensures ok && limits != [] ==>
        && signature == d(XraySignature(limits)) && XraySignature(applied) == XraySignature(limits)
        && (table == Some(XrayScript(applied)) || table == Some(Legacy(XrayScript(applied))))
      ensures ok && limits != [] && (old(signature) != signature || (CleanEmails(old(applied)) && CleanEmails(limits))) ==>
        applied == limits
      ensures applied == old(applied) || applied == limits
      ensures !ok ==>
        && signature == old(signature) && applied == old(applied) && !first.Loaded? && !second.Loaded?
        && (table == None || table == old(table))
    {
      if limits == [] {
        if signature != "" {
          if deleteOk { table := None; }
          signature := "";
        }
        return true;
      }
      var text, script := BuildXrayPolicy(limits);
      var sig := d(text);
      if sig == signature {
        if CleanEmails(applied) && CleanEmails(limits) { XraySignatureDeterminesScript(applied, limits); }
        if listOk && table.Some? { return true; }
      }
      ok := LoadTable(script, first);
      if !ok {
        var legacy := Legacy(script);
        assert script.output[0] == MarkFromSocket;
        ok := LoadTable(legacy, second);
        if !ok { return; }
      }
      signature := sig;
      applied := limits;
    }
  }

  class SshPolicyCache {
    var signature: string
    var table: Option<Script>
    ghost var applied: seq<SshUser>

    ghost predicate Valid(d: Digest)
      reads this
    {
      signature != "" ==>
        signature == d(SshSignature(applied)) && (table.Some? ==> table.value == SshScript(applied))
    }

    constructor ()
      ensures forall d :: Valid(d)
    {
      signature, table, applied := "", None, [];
    }

    /** `ResetUserTraffic` forgets the signature so that the next poll loads fresh counters. */
    method Forget(ghost d: Digest)
      modifies this`signature
      ensures Valid(d) && signature == ""
    {
      signature := "";
    }

    /** `ensureSSHPolicy`: true exactly when a table was loaded. A matching signature is trusted
        without looking at the kernel; then the kernel holds this very program or none. */
    method Ensure(users: seq<SshUser>, uidOf: map<int, int>, d: Digest, attempt: Attempt) returns (loaded: bool)
      requires Collisionless(d) && Valid(d)
      modifies this
      ensures Valid(d)
      ensures loaded <==> attempt.Loaded? && old(signature) != d(SshSignature(Known(users, uidOf)))
      ensures loaded ==> table == Some(SshScript(Known(users, uidOf)))
      ensures old(signature) == d(SshSignature(Known(users, uidOf))) ==>
        table == old(table) && (table == None || table == Some(SshScript(Known(users, uidOf))))
    {
      var text, script, known := BuildSshPolicy(users, uidOf);
      var sig := d(text);
      if sig == signature {
        SshSignatureDeterminesScript(applied, known);
        return false;
      }
      match attempt {
        case Refused => return false;
        case Lost => table := None; return false;
        case Loaded =>
      }
      table := Some(script);
      signature := sig;
      applied := known;
      loaded := true;
    }
  }
}
