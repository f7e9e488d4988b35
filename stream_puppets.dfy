/**
 * The per-stream puppet registry of the server (zerver/actions/stream_puppets.py):
 * a table of puppet identities keyed by (stream, name), the upsert that a
 * puppet message triggers, the most-recently-used listing used for
 * autocomplete, and the read of a puppet's active handlers.
 */
module StreamPuppets {
  import opened Common
  import Ordering

  type StreamId = nat
  type UserId = nat
  type PuppetId = nat

  /** The uniqueness key of the table. */
  datatype PuppetKey = PuppetKey(stream: StreamId, name: string)

  /** A StreamPuppet row. */
  datatype Puppet = Puppet(
    id: PuppetId,
    stream: StreamId,
    name: string,
    avatarUrl: Option<string>,
    color: Option<string>,
    lastUsed: int,
    createdBy: UserId)

  /** The projection returned to clients: id, name, avatar_url, color. */
  datatype PuppetView = PuppetView(id: PuppetId, name: string, avatarUrl: Option<string>, color: Option<string>)

  /** Columns a `save(update_fields=...)` may write. */
  datatype Column = LastUsedColumn | AvatarUrlColumn | ColorColumn

  function View(p: Puppet): PuppetView
  {
    PuppetView(p.id, p.name, p.avatarUrl, p.color)
  }

  /** The row after saving the in-memory object `obj` with only `fields` written. */
  function SaveFields(row: Puppet, obj: Puppet, fields: seq<Column>): Puppet
  {
    row.(lastUsed := if LastUsedColumn in fields then obj.lastUsed else row.lastUsed,
         avatarUrl := if AvatarUrlColumn in fields then obj.avatarUrl else row.avatarUrl,
         color := if ColorColumn in fields then obj.color else row.color)
  }

  /** Saving an object that already matches its row changes nothing, whatever columns are named. */
  lemma SaveFieldsOfStoredObject(row: Puppet, fields: seq<Column>)
    ensures SaveFields(row, row, fields) == row
  {
  }

  /** Every row sits under the key made of its own stream and name. */
  ghost predicate KeyedByStreamAndName(rows: map<PuppetKey, Puppet>)
  {
    forall k :: k in rows ==> rows[k].stream == k.stream && rows[k].name == k.name
  }

  /** Rows sit under their own key, ids are below the next id to hand out, and no two rows share an id. */
  ghost predicate WellFormedTable(rows: map<PuppetKey, Puppet>, nextId: PuppetId)
  {
    && KeyedByStreamAndName(rows)
    && (forall k :: k in rows ==> rows[k].id < nextId)
    && (forall k1, k2 :: k1 in rows && k2 in rows && rows[k1].id == rows[k2].id ==> k1 == k2)
  }

  /** Storing a row under its own key keeps the table well formed, when the row
      keeps the id already there or takes the next fresh id. */
  lemma StoreKeepsWellFormed(rows: map<PuppetKey, Puppet>, nextId: PuppetId, p: Puppet, nextId': PuppetId)
    requires WellFormedTable(rows, nextId)
    requires PuppetKey(p.stream, p.name) in rows ==> p.id == rows[PuppetKey(p.stream, p.name)].id && nextId' == nextId
    requires PuppetKey(p.stream, p.name) !in rows ==> p.id == nextId && nextId' == nextId + 1
    ensures WellFormedTable(rows[PuppetKey(p.stream, p.name) := p], nextId')
  {
  }

  /** The StreamPuppet table. */
  class PuppetTable {
    var rows: map<PuppetKey, Puppet>
    var nextId: PuppetId

    ghost predicate Valid()
      reads this
    {
      WellFormedTable(rows, nextId)
    }

    constructor ()
      ensures Valid() && rows == map[] && nextId == 0
    {
      rows := map[];
      nextId := 0;
    }

    /**
     * register_stream_puppet: update_or_create keyed by (stream, name), whose
     * defaults (avatar, colour, last_used, created_by) are written on the
     * update path as well as on the create path; on the update path the
     * function then bumps last_used and re-applies a truthy avatar and a
     * present colour, saving only those columns. `now` is the current time.
     */
    method Register(stream: StreamId, puppetName: string, puppetAvatarUrl: Option<string>,
                    sender: UserId, puppetColor: Option<string>, now: int)
      returns (puppet: Puppet)
      requires Valid()
      modifies this
      ensures Valid()
      ensures rows == old(rows)[PuppetKey(stream, puppetName) := puppet]
      ensures PuppetKey(stream, puppetName) in old(rows) ==>
        && puppet == old(rows)[PuppetKey(stream, puppetName)].(
             avatarUrl := puppetAvatarUrl, color := puppetColor, lastUsed := now, createdBy := sender)
        && nextId == old(nextId)
      ensures PuppetKey(stream, puppetName) !in old(rows) ==>
        && puppet == Puppet(old(nextId), stream, puppetName, puppetAvatarUrl, puppetColor, now, sender)
        && nextId == old(nextId) + 1
    {
      var key := PuppetKey(stream, puppetName);
      var created: bool;
      // update_or_create: the defaults are applied whether or not the row exists
      if key in rows {
        puppet := rows[key].(avatarUrl := puppetAvatarUrl, color := puppetColor,
                             lastUsed := now, createdBy := sender);
        created := false;
      } else {
        puppet := Puppet(nextId, stream, puppetName, puppetAvatarUrl, puppetColor, now, sender);
        nextId := nextId + 1;
        created := true;
      }
      var stored := puppet;  // the row as update_or_create writes it
      if !created {
        puppet := puppet.(lastUsed := now);
        var updateFields := [LastUsedColumn];
        if Truthy(puppetAvatarUrl) {
          puppet := puppet.(avatarUrl := puppetAvatarUrl);
          updateFields := updateFields + [AvatarUrlColumn];
        }
        if puppetColor.Some? {
          puppet := puppet.(color := puppetColor);
          updateFields := updateFields + [ColorColumn];
        }
        // every re-applied value equals the one update_or_create already wrote
        assert puppet == stored;
        SaveFieldsOfStoredObject(stored, updateFields);
        stored := SaveFields(stored, puppet, updateFields);
      }
      StoreKeepsWellFormed(rows, old(nextId), stored, nextId);
      rows := rows[key := stored];
    }
  }

  /** The keys of `stream`'s rows, each once, most recently used first. */
  ghost function StreamOrder(rows: map<PuppetKey, Puppet>, stream: StreamId): (ks: seq<PuppetKey>)
    ensures forall i :: 0 <= i < |ks| ==> ks[i] in rows && ks[i].stream == stream
    ensures forall k :: k in rows && k.stream == stream ==> k in ks
    ensures forall i, j :: 0 <= i < j < |ks| ==> ks[i] != ks[j]
    ensures forall i, j :: 0 <= i < j < |ks| ==> rows[ks[i]].lastUsed >= rows[ks[j]].lastUsed
  {
    var keys := set k | k in rows && k.stream == stream;
    var lastUsed := (k: PuppetKey) => if k in rows then rows[k].lastUsed else 0;
    var order := Ordering.SortDesc(keys, lastUsed);
    assert forall i :: 0 <= i < |order| ==> order[i] in keys;
    order
  }

  /**
   * get_stream_puppets: the puppets of `stream`, each once, projected to
   * id/name/avatar/colour, most recently used first.
   */
  ghost function StreamPuppetList(rows: map<PuppetKey, Puppet>, stream: StreamId): (r: seq<PuppetView>)
    requires KeyedByStreamAndName(rows)
    ensures forall i :: 0 <= i < |r| ==>
      PuppetKey(stream, r[i].name) in rows && r[i] == View(rows[PuppetKey(stream, r[i].name)])
    ensures forall k :: k in rows && k.stream == stream ==> View(rows[k]) in r
    ensures forall i, j :: 0 <= i < j < |r| ==> r[i].name != r[j].name
    ensures forall i, j :: 0 <= i < j < |r| ==>
      rows[PuppetKey(stream, r[i].name)].lastUsed >= rows[PuppetKey(stream, r[j].name)].lastUsed
  {
    var order := StreamOrder(rows, stream);
    var r := seq(|order|, i requires 0 <= i < |order| => View(rows[order[i]]));
    StreamPuppetListNamesKeys(rows, stream, order, r);
    StreamPuppetListComplete(rows, stream, order, r);
    r
  }

  lemma StreamPuppetListComplete(rows: map<PuppetKey, Puppet>, stream: StreamId, order: seq<PuppetKey>, r: seq<PuppetView>)
    requires forall k :: k in rows && k.stream == stream ==> k in order
    requires forall i :: 0 <= i < |order| ==> order[i] in rows
    requires |r| == |order| && forall i :: 0 <= i < |r| ==> r[i] == View(rows[order[i]])
    ensures forall k :: k in rows && k.stream == stream ==> View(rows[k]) in r
  {
    forall k | k in rows && k.stream == stream
      ensures View(rows[k]) in r
    {
      var i :| 0 <= i < |order| && order[i] == k;
      assert r[i] == View(rows[k]);
    }
  }

  lemma StreamPuppetListNamesKeys(rows: map<PuppetKey, Puppet>, stream: StreamId, order: seq<PuppetKey>, r: seq<PuppetView>)
    requires KeyedByStreamAndName(rows)
    requires forall i :: 0 <= i < |order| ==> order[i] in rows && order[i].stream == stream
    requires |r| == |order| && forall i :: 0 <= i < |r| ==> r[i] == View(rows[order[i]])
    ensures forall i :: 0 <= i < |r| ==> PuppetKey(stream, r[i].name) == order[i]
  {
  }

  /**
   * A registration made at `now`, when every other puppet of the stream was
   * last used strictly earlier, puts the registered puppet first in the
   * stream's listing.
   */
  lemma RegisteredPuppetListedFirst(rows: map<PuppetKey, Puppet>, p: Puppet, now: int)
    requires KeyedByStreamAndName(rows)
    requires p.lastUsed == now
    requires forall k :: k in rows && k.stream == p.stream && k.name != p.name ==> rows[k].lastUsed < now
    ensures KeyedByStreamAndName(rows[PuppetKey(p.stream, p.name) := p])
    ensures var listing := StreamPuppetList(rows[PuppetKey(p.stream, p.name) := p], p.stream);
      |listing| > 0 && listing[0] == View(p)
  {
    var key := PuppetKey(p.stream, p.name);
    var rows' := rows[key := p];
    var listing := StreamPuppetList(rows', p.stream);
    assert View(rows'[key]) in listing;
    var i :| 0 <= i < |listing| && listing[i] == View(p);
  }

  /** A row linking a puppet to an account that claimed or was assigned it. */
  datatype HandlerType = Claimed | Assigned
  datatype PuppetHandler = PuppetHandler(puppet: PuppetId, handler: UserId, handlerType: HandlerType)

  /**
   * get_puppet_handler_user_ids: the accounts handling any of `puppetIds`,
   * hiding accounts that are not in `active` (deactivated) at read time.
   */
  function HandlerUserIds(handlers: set<PuppetHandler>, puppetIds: seq<PuppetId>, active: set<UserId>): (r: set<UserId>)
    ensures r <= active
    ensures forall h :: h in handlers && h.puppet in puppetIds && h.handler in active ==> h.handler in r
    ensures forall u :: u in r ==> exists h :: h in handlers && h.puppet in puppetIds && h.handler == u
  {
    set h | h in handlers && h.puppet in puppetIds && h.handler in active :: h.handler
  }

  /** Deactivating an account hides exactly that account from the read; the
      handler rows themselves are not touched. */
  lemma DeactivationHidesOnlyThatAccount(handlers: set<PuppetHandler>, puppetIds: seq<PuppetId>,
                                         active: set<UserId>, u: UserId)
    ensures HandlerUserIds(handlers, puppetIds, active - {u}) == HandlerUserIds(handlers, puppetIds, active) - {u}
  {
  }
}
