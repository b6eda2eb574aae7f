/** The same of a direct record's restore, and when it asks for a rebind. */
module Restores {
  import opened Text
  import opened OrderedDict
  import opened Devices
  import opened UsbipClient
  import opened Backoff
  import opened ClientState
  import opened Registry
  import opened Attaches

  // --------------------------------------------------- restoring a direct record

  /**
   * A dropped direct record comes back exactly when its server is registered and the first attach succeeds, or else
   * the device is found idle elsewhere and the second does; it then holds the session and busid of that attach.
   */
  lemma DirectComesBackExactlyIf(s: State, id: Id, att: Record, a: Answers)
    requires Restorable(s, id, att, a) && att.autoFailover && att.group.None?
    ensures
      var (t, r) := Restore(s, id, att, a);
      && (r.Back? <==> att.server in s.servers && (a.attach(0).Attached? || (IdleSomewhere(att, a) && a.attach(1).Attached?)))
      && (r.Back? ==> id in t.attachments.entries && BackThrough(t.attachments.entries[id], att, a))
      && (!r.Back? ==> r.Failed? && t.attachments.entries == s.attachments.entries[id := Bumped(att, a.now)])
      && (att.server !in s.servers ==> t.trace == s.trace + [AttemptFailed(id, a.now)])
  {
    RestoreDirectKeeps(s, id, att, a);
    SearchSucceedsExactlyIf(att, a);
    if att.server in s.servers {
      if a.attach(0).Attached? {
        DirectBackEffect(s, id, att, att.busid, a.attach(0), a);
      } else if IdleSomewhere(att, a) && a.attach(1).Attached? {
        DirectBackEffect(s, id, att, FindRelocated(a.fetch(0), att.serial, att.busid).value, a.attach(1), a);
      }
    }
  }

  ghost predicate IdleSomewhere(att: Record, a: Answers) {
    exists busid :: IdleElsewhere(a.fetch(0), att.serial, att.busid, busid)
  }

  lemma SearchSucceedsExactlyIf(att: Record, a: Answers)
    ensures FindRelocated(a.fetch(0), att.serial, att.busid).Some? <==> IdleSomewhere(att, a)
    ensures FindRelocated(a.fetch(0), att.serial, att.busid).Some? ==>
      IdleElsewhere(a.fetch(0), att.serial, att.busid, FindRelocated(a.fetch(0), att.serial, att.busid).value)
  {
    forall busid
      ensures FindRelocated(a.fetch(0), att.serial, att.busid) == Some(busid) <==> IdleElsewhere(a.fetch(0), att.serial, att.busid, busid)
    {
      SearchFindsExactlyTheIdle(a.fetch(0), att.serial, att.busid, busid);
    }
  }

  /** The record as reconnected by the attach that succeeded. */
  ghost predicate BackThrough(r: Record, att: Record, a: Answers) {
    && IsReconnected(r, att, a) && r.local.Some?
    && if a.attach(0).Attached? then r.busid == att.busid && a.attach(0) == Attached(r.port, r.local.value)
       else IdleElsewhere(a.fetch(0), att.serial, att.busid, r.busid) && a.attach(1) == Attached(r.port, r.local.value)
  }

  // ------------------------------------------------------------ forced rebinds

  /** The text says "busy", in whatever case. */
  ghost predicate SaysBusy(error: string) {
    exists i :: 0 <= i <= |error| - 4 && BusyAt(error, i)
  }

  ghost predicate BusyAt(error: string, i: nat)
    requires i <= |error| - 4
  {
    error[i] in "bB" && error[i + 1] in "uU" && error[i + 2] in "sS" && error[i + 3] in "yY"
  }

  lemma BusyExactlyAt(error: string, i: nat)
    requires i <= |error|
    ensures "busy" <= Lower(error)[i..] <==> i <= |error| - 4 && BusyAt(error, i)
  {
    var rest := Lower(error)[i..];
    if i <= |error| - 4 {
      assert forall k :: 0 <= k < 4 ==> rest[k] == LowerChar(error[i + k]);
      assert "busy" <= rest <==> rest[..4] == "busy";
      assert rest[..4] == [rest[0], rest[1], rest[2], rest[3]];
    }
  }

  lemma BusyExactly(error: string)
    ensures IsBusyError(error) <==> SaysBusy(error)
  {
    forall i | 0 <= i <= |error|
      ensures "busy" <= Lower(error)[i..] <==> i <= |error| - 4 && BusyAt(error, i)
    {
      BusyExactlyAt(error, i);
    }
  }

  /** The refusal of a device still exported is such a text. */
  lemma ExportedIsBusy()
    ensures IsBusyError("Attach Request for 1-2 failed - Device busy (exported)")
  {
    var error := "Attach Request for 1-2 failed - Device busy (exported)";
    assert BusyAt(error, 39);
    BusyExactly(error);
  }

  /** The last attach of the restore was refused at `busid` with this text. */
  ghost predicate LastRefusal(att: Record, a: Answers, busid: string, error: string) {
    && a.attach(0).CommandError?
    && if IdleSomewhere(att, a) then IdleElsewhere(a.fetch(0), att.serial, att.busid, busid) && a.attach(1) == CommandError(error)
       else busid == att.busid && a.attach(0) == CommandError(error)
  }

  /**
   * A restore that ends in such a refusal asks the record's own server for a rebind of the busid just refused, exactly
   * when the record has automatic rebind and this is its sixth failure in a row, or it is a busy one in the first 180
   * seconds of the process and the first of those for this id.
   */
  lemma RebindIsAskedExactlyIf(s: State, id: Id, att: Record, a: Answers, busid: string, error: string)
    requires Restorable(s, id, att, a) && att.autoFailover && att.group.None? && att.server in s.servers
    requires LastRefusal(att, a, busid, error)
    ensures
      var t := Restore(s, id, att, a).0;
      var sixth, early := att.failures + 1 == 6, SaysBusy(error) && id !in s.startup && a.uptime < 180;
      && t.trace == s.trace + [AttemptFailed(id, a.now)] +
           (if att.autoRebind && sixth then [AskedRebind(id, att.server, busid, SixFailures)]
            else if att.autoRebind && early then [AskedRebind(id, att.server, busid, BusyAtStartup)] else [])
      && t.startup == if att.autoRebind && !sixth && early then s.startup + {id} else s.startup
  {
    SearchSucceedsExactlyIf(att, a);
    if IdleSomewhere(att, a) { SearchFindsExactlyTheIdle(a.fetch(0), att.serial, att.busid, busid); }
    FailureAsksExactlyIf(s, id, att, busid, error, a);
  }

  lemma FailureAsksExactlyIf(s: State, id: Id, att: Record, busid: string, error: string, a: Answers)
    requires id in s.attachments.entries && s.attachments.entries[id] == att
    ensures
      var t := DirectFailed(s, id, att, busid, error, a);
      var sixth, early := att.failures + 1 == 6, SaysBusy(error) && id !in s.startup && a.uptime < 180;
      && t.trace == s.trace + [AttemptFailed(id, a.now)] +
           (if att.autoRebind && sixth then [AskedRebind(id, att.server, busid, SixFailures)]
            else if att.autoRebind && early then [AskedRebind(id, att.server, busid, BusyAtStartup)] else [])
      && t.startup == if att.autoRebind && !sixth && early then s.startup + {id} else s.startup
  {
    BusyExactly(error);
    var noted := FailureNoted(s, id, a.now);
    assert FailureCount(noted, id) == att.failures + 1;
    assert noted.trace + [] == noted.trace;
  }
}
