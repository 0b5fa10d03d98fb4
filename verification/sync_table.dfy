/**
 A world is a table of independent rows.

 `Represents` says that the two stores and the link relation are exactly what the
 rows say, each record and each link belonging to one row. Applying an action
 changes only the row it belongs to, so a whole run is the rows run separately.
 */
module SyncTable {
  import opened Wrappers
  import opened SyncState
  import opened SyncPlan
  import opened SyncApply

  ghost predicate Apart(a: Row, b: Row) {
    && (a.localId.Some? ==> a.localId != b.localId)
    && (a.remoteId.Some? ==> a.remoteId != b.remoteId)
  }

  ghost predicate Holds(row: Row, run: Run) {
    var w := run.world;
    && (row.localId.None? ==> row.local.None? && row.link.None?)
    && (row.remoteId.None? ==> row.remote.None? && row.link.None?)
    && (row.localId.Some? ==>
          && row.localId.value in w.local.used
          && row.local == Lookup(w.local.items, row.localId.value)
          && (row.wroteLocal <==> row.localId.value in run.result.touchedLocal))
    && (row.remoteId.Some? ==>
          && row.remoteId.value in w.remote.used
          && row.remote == Lookup(w.remote.items, row.remoteId.value)
          && (row.wroteRemote <==> row.remoteId.value in run.result.touchedRemote))
    && (row.link.Some? ==>
          Link(row.localId.value, row.remoteId.value, row.link.value.local, row.link.value.remote) in w.links)
    && (row.link.None? ==> forall k :: k in w.links ==> !Mentions(k, row.localId, row.remoteId))
  }

  ghost predicate NamesLocal(rows: seq<Row>, id: Id) {
    exists i :: 0 <= i < |rows| && rows[i].localId == Some(id)
  }

  ghost predicate NamesRemote(rows: seq<Row>, id: Id) {
    exists i :: 0 <= i < |rows| && rows[i].remoteId == Some(id)
  }

  ghost predicate Represents(rows: seq<Row>, run: Run) {
    && (forall i, j :: 0 <= i < j < |rows| ==> Apart(rows[i], rows[j]))
    && (forall i :: 0 <= i < |rows| ==> Holds(rows[i], run))
    && (forall x :: x in run.world.local.items ==> NamesLocal(rows, x))
    && (forall y :: y in run.world.remote.items ==> NamesRemote(rows, y))
    && (forall k :: k in run.world.links ==> NamesLocal(rows, k.localId))
    // Only ids some store has handed out can have been written.
    && run.result.touchedLocal <= run.world.local.used
    && run.result.touchedRemote <= run.world.remote.used
  }

  /** The action is about this row: it names the row's ids, and a create fills its empty side. */
  predicate Belongs(a: Action, row: Row) {
    match a
    case CreateLocal(y, _) => row.localId.None? && row.remoteId == Some(y) && row.remote.Some?
    case CreateRemote(x, _) => row.remoteId.None? && row.localId == Some(x) && row.local.Some?
    case UpdateLocal(x, y, _) => row.localId == Some(x) && row.remoteId == Some(y)
    case UpdateRemote(x, y, _) => row.localId == Some(x) && row.remoteId == Some(y)
    case DeleteLocal(x, y) => row.localId == Some(x) && row.remoteId == Some(y)
    case DeleteRemote(x, y) => row.localId == Some(x) && row.remoteId == Some(y)
    case LinkUp(x, y, _) => row.localId == Some(x) && row.remoteId == Some(y)
    case Unlink(x, y) => row.localId == Some(x) && row.remoteId == Some(y)
    case Conflict(x, y) => row.localId == Some(x) && row.remoteId == Some(y)
    case Skip => true
  }

  function Agreed(record: Record): Option<Hashes> {
    Some(Hashes(record.fingerprint, record.fingerprint))
  }

  /** What an action does to its own row, given how its store call went. */
  function StepRow(a: Action, reply: Reply, row: Row): Row {
    match a
    case CreateLocal(_, record) =>
      if reply.Refused? then row
      else row.(localId := Some(reply.id), local := Some(reply.stored), link := Agreed(record), wroteLocal := true)
    case CreateRemote(_, record) =>
      if reply.Refused? then row
      else row.(remoteId := Some(reply.id), remote := Some(reply.stored), link := Agreed(record), wroteRemote := true)
    case UpdateLocal(_, _, record) =>
      if reply.Refused? then row
      else row.(local := Some(reply.stored), link := Agreed(record), wroteLocal := true)
    case UpdateRemote(_, _, record) =>
      if reply.Refused? then row
      else row.(remote := Some(reply.stored), link := Agreed(record), wroteRemote := true)
    case DeleteLocal(_, _) => if reply.Refused? then row else row.(local := None, link := None)
    case DeleteRemote(_, _) => if reply.Refused? then row else row.(remote := None, link := None)
    case LinkUp(_, _, record) => row.(link := Agreed(record))
    case Unlink(_, _) => row.(link := None)
    case Conflict(_, _) => row
    case Skip => row
  }

  /** The reply as it took effect: a raising call counts as refused. */
  function Effective(a: Action, reply: Reply, w: World): Reply {
    if Perform(a, reply, w).None? then Refused else reply
  }

  /** A row apart from the one an action belongs to still holds after it. */
  lemma {:induction false} OtherRowHolds(row: Row, own: Row, a: Action, reply: Reply, run: Run)
    requires Holds(row, run) && Holds(own, run) && Belongs(a, own)
    requires Apart(row, own) && Apart(own, row)
    ensures Holds(row, Step(a, reply, run))
  {
    LinksElsewhere(row, own, a, reply, run);
    StoresElsewhere(row, own, a, reply, run);
  }

  /** Another row keeps its link and gets no new one. */
  lemma {:induction false} LinksElsewhere(row: Row, own: Row, a: Action, reply: Reply, run: Run)
    requires Holds(row, run) && Holds(own, run) && Belongs(a, own)
    requires Apart(row, own) && Apart(own, row)
    ensures row.link.Some? ==>
      Link(row.localId.value, row.remoteId.value, row.link.value.local, row.link.value.remote)
        in Step(a, reply, run).world.links
    ensures forall k :: k in Step(a, reply, run).world.links && Mentions(k, row.localId, row.remoteId) ==>
      k in run.world.links
  {
  }

  /** So do its records, and whether they were written. */
  lemma {:induction false} StoresElsewhere(row: Row, own: Row, a: Action, reply: Reply, run: Run)
    requires Holds(row, run) && Holds(own, run) && Belongs(a, own)
    requires Apart(row, own) && Apart(own, row)
    ensures var (w, t) := (Step(a, reply, run).world, Step(a, reply, run).result);
      && (row.localId.Some? ==>
            var x := row.localId.value;
            && x in w.local.used
            && Lookup(w.local.items, x) == Lookup(run.world.local.items, x)
            && (x in t.touchedLocal <==> x in run.result.touchedLocal))
      && (row.remoteId.Some? ==>
            var y := row.remoteId.value;
            && y in w.remote.used
            && Lookup(w.remote.items, y) == Lookup(run.world.remote.items, y)
            && (y in t.touchedRemote <==> y in run.result.touchedRemote))
  {
  }

  lemma {:induction false} OwnRowHolds(row: Row, a: Action, reply: Reply, run: Run)
    requires ValidWorld(run.world) && Holds(row, run) && Belongs(a, row)
    ensures Holds(StepRow(a, Effective(a, reply, run.world), row), Step(a, reply, run))
  {
    var run' := Step(a, reply, run);
    var row' := StepRow(a, Effective(a, reply, run.world), row);
    if row'.link.None? {
      forall k | k in run'.world.links ensures !Mentions(k, row'.localId, row'.remoteId) {
        assert k in run.world.links;
        if row.link.Some? {
          var own := Link(row.localId.value, row.remoteId.value, row.link.value.local, row.link.value.remote);
          if Mentions(k, row'.localId, row'.remoteId) {
            SameEndSameLink(run.world.links, k, own);
          }
        }
      }
    }
  }

  /** One action moves the table by exactly one row's step. */
  lemma {:induction false} StepRefines(rows: seq<Row>, j: nat, a: Action, reply: Reply, run: Run)
    requires ValidWorld(run.world) && Represents(rows, run)
    requires j < |rows| && Belongs(a, rows[j])
    ensures ValidWorld(Step(a, reply, run).world)
    ensures Represents(rows[j := StepRow(a, Effective(a, reply, run.world), rows[j])], Step(a, reply, run))
  {
    var run' := Step(a, reply, run);
    var row' := StepRow(a, Effective(a, reply, run.world), rows[j]);
    var rows' := rows[j := row'];
    assert Holds(rows[j], run);
    StepKeepsValid(a, reply, run);
    OwnRowHolds(rows[j], a, reply, run);
    forall i | 0 <= i < |rows'| ensures Holds(rows'[i], run') {
      if i != j {
        assert if i < j then Apart(rows[i], rows[j]) else Apart(rows[j], rows[i]);
        OtherRowHolds(rows[i], rows[j], a, reply, run);
      }
    }
    forall i, i' | 0 <= i < i' < |rows'| ensures Apart(rows'[i], rows'[i']) {
      assert Apart(rows[i], rows[i']) && Holds(rows[i], run) && Holds(rows[i'], run);
    }
    StepCovers(rows, j, a, reply, run);
  }

  /** What a step can add to the stores, the links and the touched sets. */
  lemma {:induction false} StepAdds(row: Row, a: Action, reply: Reply, run: Run)
    requires Holds(row, run) && Belongs(a, row)
    ensures var row' := StepRow(a, Effective(a, reply, run.world), row);
      var run' := Step(a, reply, run);
      && (row.localId.Some? ==> row'.localId == row.localId)
      && (row.remoteId.Some? ==> row'.remoteId == row.remoteId)
      && (forall x :: x in run'.world.local.items ==> x in run.world.local.items || row'.localId == Some(x))
      && (forall y :: y in run'.world.remote.items ==> y in run.world.remote.items || row'.remoteId == Some(y))
      && (forall k :: k in run'.world.links ==> k in run.world.links || row'.localId == Some(k.localId))
      && run.world.local.used <= run'.world.local.used
      && run.world.remote.used <= run'.world.remote.used
      && (forall x :: x in run'.result.touchedLocal ==>
            x in run.result.touchedLocal || (row'.localId == Some(x) && x in run'.world.local.used))
      && (forall y :: y in run'.result.touchedRemote ==>
            y in run.result.touchedRemote || (row'.remoteId == Some(y) && y in run'.world.remote.used))
  {
    match a {
      case CreateLocal(_, _) => {}
      case CreateRemote(_, _) => {}
      case UpdateLocal(_, _, _) => {}
      case UpdateRemote(_, _, _) => {}
      case DeleteLocal(_, _) => {}
      case DeleteRemote(_, _) => {}
      case LinkUp(_, _, _) => {}
      case Unlink(_, _) => {}
      case Conflict(_, _) => {}
      case Skip => {}
    }
  }

  lemma {:induction false} StepCovers(rows: seq<Row>, j: nat, a: Action, reply: Reply, run: Run)
    requires Represents(rows, run)
    requires j < |rows| && Belongs(a, rows[j])
    ensures var rows' := rows[j := StepRow(a, Effective(a, reply, run.world), rows[j])];
      var run' := Step(a, reply, run);
      && (forall x :: x in run'.world.local.items ==> NamesLocal(rows', x))
      && (forall y :: y in run'.world.remote.items ==> NamesRemote(rows', y))
      && (forall k :: k in run'.world.links ==> NamesLocal(rows', k.localId))
      && run'.result.touchedLocal <= run'.world.local.used
      && run'.result.touchedRemote <= run'.world.remote.used
  {
    var row' := StepRow(a, Effective(a, reply, run.world), rows[j]);
    var rows' := rows[j := row'];
    var run' := Step(a, reply, run);
    assert Holds(rows[j], run);
    StepAdds(rows[j], a, reply, run);
    assert rows'[j] == row';
    forall x | NamesLocal(rows, x) || row'.localId == Some(x) ensures NamesLocal(rows', x) {
      if NamesLocal(rows, x) {
        var i :| 0 <= i < |rows| && rows[i].localId == Some(x);
        assert rows'[i].localId == Some(x);
      }
    }
    forall y | NamesRemote(rows, y) || row'.remoteId == Some(y) ensures NamesRemote(rows', y) {
      if NamesRemote(rows, y) {
        var i :| 0 <= i < |rows| && rows[i].remoteId == Some(y);
        assert rows'[i].remoteId == Some(y);
      }
    }
  }
}
