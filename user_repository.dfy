/** user_repository.py: the user table (dict records keyed by id) and the
    append-only audit log. */
module UserRepository {
  import opened Common
  import opened Json
  import opened Tables

  /** normalize_email: trimmed and lower-cased. */
  function NormalizeEmail(email: string): (r: string)
    ensures |r| <= |email|
    ensures forall i :: 0 <= i < |r| ==> !IsUpper(r[i])
    ensures r != [] ==> !IsSpace(r[0]) && !IsSpace(r[|r| - 1])
  {
    LowerStr(Strip(email))
  }

  /** Lower-casing keeps exactly the whitespace positions. */
  lemma LowerKeepsSpace(c: char)
    ensures IsSpace(ToLower(c)) <==> IsSpace(c)
  {
  }

  /** Normalising twice is normalising once. */
  lemma NormalizeIdempotent(email: string)
    ensures NormalizeEmail(NormalizeEmail(email)) == NormalizeEmail(email)
  {
    var n := NormalizeEmail(email);
    assert Strip(n) == n by { StripNoEdgeSpace(n); }
    assert LowerStr(n) == n by { LowerIdempotent(n); }
  }

  lemma StripNoEdgeSpace(s: string)
    requires s != [] ==> !IsSpace(s[0]) && !IsSpace(s[|s| - 1])
    ensures Strip(s) == s
  {
  }

  lemma LowerIdempotent(s: string)
    requires forall i :: 0 <= i < |s| ==> !IsUpper(s[i])
    ensures LowerStr(s) == s
  {
  }

  /** user.get("email", "") (a non-string email reads as ""). */
  function EmailOf(user: Record): string
  {
    StrField(user, "email", "")
  }

  predicate EmailMatches(user: Record, normalized: string)
  {
    NormalizeEmail(EmailOf(user)) == normalized
  }

  function MatchesEmail(normalized: string): Record -> bool
  {
    (u: Record) => EmailMatches(u, normalized)
  }

  /** The first user, in table order, whose normalised email is `normalized`. */
  function FirstByEmail(users: seq<Record>, normalized: string): (r: Option<Record>)
    ensures r.None? <==> forall i :: 0 <= i < |users| ==> !EmailMatches(users[i], normalized)
    ensures r.Some? ==> var i := FirstIndex(users, MatchesEmail(normalized));
                        i < |users| && r.value == users[i] && EmailMatches(r.value, normalized) &&
                        forall j :: 0 <= j < i ==> !EmailMatches(users[j], normalized)
  {
    var i := FirstIndex(users, MatchesEmail(normalized));
    if i < |users| then Some(users[i]) else None
  }

  /** `active` true or absent. */
  predicate IsActiveUser(user: Record)
  {
    "active" !in user || Truthy(user["active"])
  }

  /** filter_active */
  function FilterActive(users: seq<Record>): (r: seq<Record>)
    ensures |r| <= |users|
    ensures forall u :: u in r <==> u in users && IsActiveUser(u)
  {
    forall u ensures u in Filter(users, IsActiveUser) <==> u in users && IsActiveUser(u) {
      FilterMember(users, IsActiveUser, u);
    }
    Filter(users, IsActiveUser)
  }

  /** extract_roles: admins also hold the "user" role; the default role is "user". */
  function ExtractRoles(user: Record): (r: seq<Json>)
    ensures "role" !in user ==> r == [JStr("user")]
    ensures "role" in user && user["role"] == JStr("admin") ==> r == [JStr("admin"), JStr("user")]
    ensures "role" in user && user["role"] != JStr("admin") ==> r == [user["role"]]
  {
    var role := if "role" in user then user["role"] else JStr("user");
    if role == JStr("admin") then [JStr("admin"), JStr("user")] else [role]
  }

  /** The record after `record[key] = value` for every key of updates except "id". */
  function Overlay<V>(record: map<string, V>, updates: map<string, V>): map<string, V>
  {
    map k | k in record.Keys + (updates.Keys - {"id"}) :: if k in updates && k != "id" then updates[k] else record[k]
  }

  /** The id is never overwritten, every other given key is set, and the
      remaining keys keep their values. */
  lemma OverlayFacts<V>(record: map<string, V>, updates: map<string, V>)
    ensures var r := Overlay(record, updates);
            && r.Keys == record.Keys + (updates.Keys - {"id"})
            && (forall k :: k in updates && k != "id" ==> r[k] == updates[k])
            && (forall k :: k in record && (k !in updates || k == "id") ==> r[k] == record[k])
  {
  }

  function Restrict<V>(m: map<string, V>, keys: set<string>): map<string, V>
  {
    map k | k in m && k in keys :: m[k]
  }

  /** The assignment loop of update_user_record. */
  method AssignExceptId<V>(record: map<string, V>, updates: map<string, V>) returns (r: map<string, V>)
    ensures r == Overlay(record, updates)
  {
    r := record;
    var remaining := updates.Keys;
    assert Overlay(record, Restrict(updates, {})) == record;
    while remaining != {}
      invariant remaining <= updates.Keys
      invariant r == Overlay(record, Restrict(updates, updates.Keys - remaining))
      decreases remaining
    {
      var key :| key in remaining;
      OverlayStep(record, updates, updates.Keys - remaining, key);
      if key != "id" {
        r := r[key := updates[key]];
      }
      assert updates.Keys - (remaining - {key}) == (updates.Keys - remaining) + {key};
      remaining := remaining - {key};
    }
    assert Restrict(updates, updates.Keys) == updates;
  }

  lemma OverlayStep<V>(record: map<string, V>, updates: map<string, V>, done: set<string>, key: string)
    requires key in updates
    ensures Overlay(record, Restrict(updates, done + {key})) ==
            if key == "id" then Overlay(record, Restrict(updates, done))
            else Overlay(record, Restrict(updates, done))[key := updates[key]]
  {
    var before := Overlay(record, Restrict(updates, done));
    var after := Overlay(record, Restrict(updates, done + {key}));
    if key != "id" {
      assert after.Keys == before[key := updates[key]].Keys;
      forall k | k in after ensures after[k] == before[key := updates[key]][k] {
      }
    } else {
      assert after.Keys == before.Keys;
    }
  }

  datatype AuditAction = CreatedAction | UpdatedAction | DeletedAction

  datatype AuditEntry = AuditEntry(entityId: string, action: AuditAction)

  class UserStore {
    /** _users_db, in insertion order */
    var users: Table<Record>
    /** _audit_log */
    var auditLog: seq<AuditEntry>

    ghost predicate Valid()
      reads this
    {
      users.Valid()
    }

    constructor()
      ensures Valid() && users == Empty() && auditLog == []
    {
      users := Empty();
      auditLog := [];
    }

    /** find_user_by_id */
    function FindById(id: string): (r: Option<Record>)
      reads this
      ensures r.Some? <==> id in users.rows
      ensures r.Some? ==> r.value == users.rows[id]
    {
      users.Get(id)
    }

    /** find_user_by_email: the first user in table order whose normalised
        email equals the normalised argument. */
    method FindByEmail(email: string) returns (r: Option<Record>)
      requires Valid()
      ensures r == FirstByEmail(users.Values(), NormalizeEmail(email))
    {
      var target := NormalizeEmail(email);
      var all := users.Values();
      var i := FindFirst(all, MatchesEmail(target));
      r := if i < |all| then Some(all[i]) else None;
    }

    /** user_exists */
    method UserExists(email: string) returns (r: bool)
      requires Valid()
      ensures r <==> exists i :: 0 <= i < |users.Values()| && EmailMatches(users.Values()[i], NormalizeEmail(email))
    {
      var found := FindByEmail(email);
      r := found.Some?;
    }

    /** create_user_record: stores the user and logs one "created" entry. */
    method Create(user: Record)
      requires Valid()
      requires "id" in user && user["id"].JStr?
      modifies this
      ensures Valid()
      ensures users == old(users).Put(user["id"].s, user)
      ensures auditLog == old(auditLog) + [AuditEntry(user["id"].s, CreatedAction)]
    {
      var id := user["id"].s;
      users := users.Put(id, user);
      auditLog := auditLog + [AuditEntry(id, CreatedAction)];
    }

    /** update_user_record: assigns every given key except "id", one at a
        time, then logs one "updated" entry; an unknown id, or an empty
        (falsy) stored record, changes nothing. */
    method Update(id: string, updates: Record) returns (r: Option<Record>)
      requires Valid()
      modifies this
      ensures Valid()
      ensures id !in old(users.rows) || old(users.rows)[id] == map[] ==>
                r.None? && users == old(users) && auditLog == old(auditLog)
      ensures id in old(users.rows) && old(users.rows)[id] != map[] ==>
                && r == Some(Overlay(old(users.rows)[id], updates))
                && users == old(users).Put(id, r.value)
                && auditLog == old(auditLog) + [AuditEntry(id, UpdatedAction)]
    {
      var found := FindById(id);
      if found.None? || found.value == map[] {
        return None;
      }
      var user := AssignExceptId(found.value, updates);
      users := users.Put(id, user);
      auditLog := auditLog + [AuditEntry(id, UpdatedAction)];
      r := Some(user);
    }

    /** delete_user_record: logs "deleted" only when the user existed. */
    method Delete(id: string) returns (r: bool)
      requires Valid()
      modifies this
      ensures Valid()
      ensures r <==> id in old(users.rows)
      ensures r ==> users == old(users).Remove(id) && auditLog == old(auditLog) + [AuditEntry(id, DeletedAction)]
      ensures !r ==> users == old(users) && auditLog == old(auditLog)
    {
      if id in users.rows {
        users := users.Remove(id);
        auditLog := auditLog + [AuditEntry(id, DeletedAction)];
        return true;
      }
      return false;
    }

    /** The users list_users slices: the table's values in key order,
        only the active ones when activeOnly. */
    function Listable(activeOnly: bool): (r: seq<Record>)
      reads this
      requires Valid()
      ensures |r| <= |users.keys|
    {
      if activeOnly then FilterActive(users.Values()) else users.Values()
    }

    /** list_users: the first `limit` listable users, with Python's meaning
        of a negative limit (all but the last -limit). */
    function ListUsers(activeOnly: bool, limit: int): (r: seq<Record>)
      reads this
      requires Valid()
      ensures |r| <= |Listable(activeOnly)| && r == Listable(activeOnly)[..|r|]
      ensures 0 <= limit ==> |r| == if limit <= |Listable(activeOnly)| then limit else |Listable(activeOnly)|
      ensures limit < 0 ==> |r| == if |Listable(activeOnly)| + limit >= 0 then |Listable(activeOnly)| + limit else 0
      ensures forall u :: u in r ==> u in users.Values() && (activeOnly ==> IsActiveUser(u))
      ensures limit >= |users.keys| ==>
                forall u :: u in users.Values() && (activeOnly ==> IsActiveUser(u)) ==> u in r
    {
      var all := users.Values();
      Take(if activeOnly then FilterActive(all) else all, limit)
    }

    /** get_audit_log: one entity's entries, in the order they were
        logged (the order-preserving Filter; AuditAppend gives how it grows). */
    function GetAuditLog(entityId: string): (r: seq<AuditEntry>)
      reads this
      ensures r == Filter(auditLog, OfEntity(entityId))
      ensures forall e :: e in r <==> e in auditLog && e.entityId == entityId
    {
      forall e ensures e in Filter(auditLog, OfEntity(entityId)) <==> e in auditLog && OfEntity(entityId)(e) {
        FilterMember(auditLog, OfEntity(entityId), e);
      }
      Filter(auditLog, OfEntity(entityId))
    }
  }

  function OfEntity(entityId: string): AuditEntry -> bool
  {
    (e: AuditEntry) => e.entityId == entityId
  }

  /** An entity's log grows by exactly the entries appended for it. */
  lemma AuditAppend(log: seq<AuditEntry>, e: AuditEntry, entityId: string)
    ensures Filter(log + [e], OfEntity(entityId)) ==
            Filter(log, OfEntity(entityId)) + (if e.entityId == entityId then [e] else [])
  {
    FilterSnoc(log, e, OfEntity(entityId));
  }
}
