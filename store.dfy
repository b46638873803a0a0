/**
  * The SQLite store: four tables (users, resources, permissions,
  * chat_history), each row with an AUTOINCREMENT id. Rows are records with
  * named fields; the tables are sequences in rowid order. The writers are
  * methods of `Database`; the queries are functions over the tables.
  *
  * Behaviour kept from the schema: `permissions` has no UNIQUE constraint on
  * (user_id, resource_id), so `INSERT OR REPLACE` always appends a row, a
  * revoke never removes an earlier grant, and the access join can return a
  * resource once per granting row. Foreign keys are not enforced (SQLite's
  * default), so deleting a user or a resource leaves its permission rows.
  */
module Store {
  import opened Text

  datatype User = User(id: nat, username: string, passwordHash: string, role: string)

  datatype Resource = Resource(
    id: nat, name: string, url: string, fileType: string, uploadedBy: string,
    uploadedAt: nat, isAccessed: bool, accessCount: nat,
    extractedText: Option<string>, lastSyncTime: Option<nat>)

  datatype Permission = Permission(id: nat, userId: int, resourceId: int, canAccess: bool, grantedBy: string)

  datatype ChatRow = ChatRow(id: nat, userId: int, message: string, response: string)

  /** One row of `get_user_permissions`: (p.id, p.resource_id, p.can_access, r.name, p.granted_by). */
  datatype PermissionView = PermissionView(permissionId: nat, resourceId: int, canAccess: bool, resourceName: string, grantedBy: string)

  // ---------------------------------------------------------------------
  // Table invariants: ids increase in rowid order and stay below the
  // AUTOINCREMENT counter; usernames (UNIQUE) and URLs (kept unique by
  // add_resource's lookup-then-update) never repeat.
  // ---------------------------------------------------------------------

  ghost predicate UsersOk(users: seq<User>, next: nat) {
    && UserIdsIncrease(users)
    && (forall i :: 0 <= i < |users| ==> 0 < users[i].id < next)
    && (forall i, j :: 0 <= i < j < |users| ==> users[i].username != users[j].username)
  }

  predicate ResourceIdsIncrease(rs: seq<Resource>) {
    forall i, j :: 0 <= i < j < |rs| ==> rs[i].id < rs[j].id
  }

  ghost predicate ResourcesOk(rs: seq<Resource>, next: nat) {
    && ResourceIdsIncrease(rs)
    && (forall i :: 0 <= i < |rs| ==> 0 < rs[i].id < next)
    && (forall i, j :: 0 <= i < j < |rs| ==> rs[i].url != rs[j].url)
  }

  /**
    * Permission ids are positive, increase along the table and stay below
    * `next`; stated row by row from the end, so that appending one row is
    * one step.
    */
  ghost predicate PermissionsOk(ps: seq<Permission>, next: nat)
    decreases |ps|
  {
    ps == [] || (0 < ps[|ps| - 1].id < next && PermissionsOk(ps[..|ps| - 1], ps[|ps| - 1].id))
  }

  ghost predicate ChatsOk(cs: seq<ChatRow>, next: nat) {
    && (forall i, j :: 0 <= i < j < |cs| ==> cs[i].id < cs[j].id)
    && (forall i :: 0 <= i < |cs| ==> 0 < cs[i].id < next)
  }

  // ---------------------------------------------------------------------
  // Lookups
  // ---------------------------------------------------------------------

  /** `SELECT ... FROM users WHERE username = ?`, first row. */
  function FindUserByName(users: seq<User>, name: string): (r: Option<User>)
    ensures r.Some? ==> r.value in users && r.value.username == name
    ensures r.None? ==> forall u :: u in users ==> u.username != name
  {
    if users == [] then None
    else if users[0].username == name then Some(users[0])
    else FindUserByName(users[1..], name)
  }

  /** `SELECT ... FROM users WHERE id = ?`, first row. */
  function FindUserById(users: seq<User>, id: int): (r: Option<User>)
    ensures r.Some? ==> r.value in users && r.value.id == id
    ensures r.None? ==> forall u :: u in users ==> u.id != id
  {
    if users == [] then None
    else if users[0].id == id then Some(users[0])
    else FindUserById(users[1..], id)
  }

  /** `SELECT * FROM users WHERE username = ? AND password_hash = ?`, first row. */
  function FindByCredentials(users: seq<User>, name: string, hash: string): (r: Option<User>)
    ensures r.Some? ==> r.value in users && r.value.username == name && r.value.passwordHash == hash
    ensures r.None? ==> forall u :: u in users ==> !(u.username == name && u.passwordHash == hash)
  {
    if users == [] then None
    else if users[0].username == name && users[0].passwordHash == hash then Some(users[0])
    else FindByCredentials(users[1..], name, hash)
  }

  predicate UserIdsIncrease(users: seq<User>) {
    forall i, j :: 0 <= i < j < |users| ==> users[i].id < users[j].id
  }

  /** The role used by the resolver: the user's role column, or "user" when no row has that id. */
  function RoleOf(users: seq<User>, id: int): (r: string)
    ensures (forall u :: u in users ==> u.id != id) ==> r == "user"
    ensures UserIdsIncrease(users) ==> forall u :: u in users && u.id == id ==> r == u.role
  {
    match FindUserById(users, id)
    case Some(u) => UniqueIdLookup(users, u, id); u.role
    case None => "user"
  }

  /** With increasing ids, at most one row carries a given id. */
  lemma UniqueIdLookup(users: seq<User>, found: User, id: int)
    requires found in users && found.id == id
    ensures UserIdsIncrease(users) ==> forall u :: u in users && u.id == id ==> u == found
  {
    if UserIdsIncrease(users) {
      forall u | u in users && u.id == id ensures u == found {
        var i :| 0 <= i < |users| && users[i] == u;
        var j :| 0 <= j < |users| && users[j] == found;
        assert !(i < j) && !(j < i);
      }
    }
  }

  /** `SELECT id FROM resources WHERE url = ?`: the index of the first row with that URL. */
  function IndexOfUrl(rs: seq<Resource>, url: string): (r: Option<nat>)
    ensures r.Some? ==> r.value < |rs| && rs[r.value].url == url
    ensures r.Some? ==> forall j :: 0 <= j < r.value ==> rs[j].url != url
    ensures r.None? ==> forall j :: 0 <= j < |rs| ==> rs[j].url != url
  {
    if rs == [] then None
    else if rs[0].url == url then Some(0)
    else match IndexOfUrl(rs[1..], url)
      case Some(k) => Some(k + 1)
      case None => None
  }

  /** The stored text of the resource with that URL (None when absent or NULL). */
  function TextOfUrl(rs: seq<Resource>, url: string): Option<string> {
    match IndexOfUrl(rs, url)
    case Some(i) => rs[i].extractedText
    case None => None
  }

  /** The whole row stored under that URL. */
  function ResourceOfUrl(rs: seq<Resource>, url: string): Option<Resource> {
    match IndexOfUrl(rs, url)
    case Some(i) => Some(rs[i])
    case None => None
  }

  /** The id of the resource with that URL. */
  function IdOfUrl(rs: seq<Resource>, url: string): Option<nat> {
    match IndexOfUrl(rs, url)
    case Some(i) => Some(rs[i].id)
    case None => None
  }

  /** The id of the row `add_resource` writes for `url`: the existing row's, or the counter's for a new row. */
  function UpsertedId(rs: seq<Resource>, newId: nat, url: string): nat {
    match IndexOfUrl(rs, url)
    case Some(i) => rs[i].id
    case None => newId
  }

  /** SQL `COALESCE(new, old)` */
  function Coalesce(newer: Option<string>, prior: Option<string>): Option<string> {
    if newer.Some? then newer else prior
  }

  // ---------------------------------------------------------------------
  // add_resource as a function of the resources table
  // ---------------------------------------------------------------------

  /**
    * The resources table after `add_resource`: an existing row with that URL
    * is updated in place (name, file type, uploader, last sync time, and the
    * text through COALESCE); otherwise one row is appended with the column
    * defaults (not accessed, access count 0, no last sync time).
    */
  function UpsertResource(rs: seq<Resource>, newId: nat, now: nat, name: string, url: string,
                          fileType: string, uploadedBy: string, text: Option<string>): seq<Resource>
  {
    match IndexOfUrl(rs, url)
    case Some(i) =>
      rs[i := rs[i].(name := name, fileType := fileType, uploadedBy := uploadedBy,
                     lastSyncTime := Some(now), extractedText := Coalesce(text, rs[i].extractedText))]
    case None =>
      rs + [Resource(newId, name, url, fileType, uploadedBy, now, false, 0, text, None)]
  }

  /** What one upsert does: the URL is present afterwards and exactly one row changed or was added. */
  lemma UpsertResourceEffect(rs: seq<Resource>, newId: nat, now: nat, name: string, url: string,
                             fileType: string, uploadedBy: string, text: Option<string>)
    ensures var rs' := UpsertResource(rs, newId, now, name, url, fileType, uploadedBy, text);
      && IndexOfUrl(rs', url).Some?
      && IdOfUrl(rs', url) == Some(UpsertedId(rs, newId, url))
      && (IndexOfUrl(rs, url).Some? ==>
            && |rs'| == |rs|
            && IndexOfUrl(rs', url) == IndexOfUrl(rs, url)
            && IdOfUrl(rs', url) == IdOfUrl(rs, url)
            && TextOfUrl(rs', url) == Coalesce(text, TextOfUrl(rs, url))
            && (forall j :: 0 <= j < |rs| && j != IndexOfUrl(rs, url).value ==> rs'[j] == rs[j]))
      && (IndexOfUrl(rs, url).None? ==>
            && rs' == rs + [Resource(newId, name, url, fileType, uploadedBy, now, false, 0, text, None)]
            && IdOfUrl(rs', url) == Some(newId)
            && TextOfUrl(rs', url) == text)
  {
    var rs' := UpsertResource(rs, newId, now, name, url, fileType, uploadedBy, text);
    match IndexOfUrl(rs, url)
    case Some(i) =>
      assert rs'[i].url == url;
      IndexOfUrlAt(rs', url, i);
    case None =>
      IndexOfUrlAt(rs', url, |rs|);
  }

  lemma {:induction false} IndexOfUrlAt(rs: seq<Resource>, url: string, i: nat)
    requires i < |rs| && rs[i].url == url
    requires forall j :: 0 <= j < i ==> rs[j].url != url
    ensures IndexOfUrl(rs, url) == Some(i)
  {
    if i > 0 {
      IndexOfUrlAt(rs[1..], url, i - 1);
    }
  }

  /** Upserting keeps the table invariant, whichever branch is taken. */
  lemma UpsertKeepsResourcesOk(rs: seq<Resource>, next: nat, now: nat, name: string, url: string,
                               fileType: string, uploadedBy: string, text: Option<string>)
    requires ResourcesOk(rs, next) && next > 0
    ensures ResourcesOk(UpsertResource(rs, next, now, name, url, fileType, uploadedBy, text),
                        if IndexOfUrl(rs, url).Some? then next else next + 1)
  {
    var rs' := UpsertResource(rs, next, now, name, url, fileType, uploadedBy, text);
    match IndexOfUrl(rs, url)
    case Some(i) =>
      assert forall j :: 0 <= j < |rs| ==> rs'[j].id == rs[j].id && rs'[j].url == rs[j].url;
    case None =>
      assert forall j :: 0 <= j < |rs| ==> rs'[j] == rs[j];
  }

  /**
    * Ingesting the same URL twice never creates a second row: the row count
    * and the row's id after the second call are those after the first, and
    * the text is the second call's text unless that is NULL, in which case
    * the first call's text survives.
    */
  lemma {:induction false} ReingestSameUrl(rs: seq<Resource>, n1: nat, t1: nat, name1: string, type1: string, by1: string, text1: Option<string>,
                                           n2: nat, t2: nat, name2: string, type2: string, by2: string, text2: Option<string>, url: string)
    ensures var rs1 := UpsertResource(rs, n1, t1, name1, url, type1, by1, text1);
      var rs2 := UpsertResource(rs1, n2, t2, name2, url, type2, by2, text2);
      && |rs2| == |rs1|
      && IdOfUrl(rs2, url) == IdOfUrl(rs1, url)
      && TextOfUrl(rs2, url) == (if text2.Some? then text2 else TextOfUrl(rs1, url))
      && (text2.None? ==> TextOfUrl(rs2, url) == Coalesce(text1, TextOfUrl(rs, url)))
  {
    UpsertResourceEffect(rs, n1, t1, name1, url, type1, by1, text1);
    var rs1 := UpsertResource(rs, n1, t1, name1, url, type1, by1, text1);
    UpsertResourceEffect(rs1, n2, t2, name2, url, type2, by2, text2);
  }

  /** An upsert of `url` leaves the row of every other URL where and as it was. */
  lemma UpsertKeepsOtherUrls(rs: seq<Resource>, newId: nat, now: nat, name: string, url: string,
                             fileType: string, uploadedBy: string, text: Option<string>)
    ensures var rs' := UpsertResource(rs, newId, now, name, url, fileType, uploadedBy, text);
      forall u :: u != url ==>
        && IndexOfUrl(rs', u) == IndexOfUrl(rs, u) && IdOfUrl(rs', u) == IdOfUrl(rs, u) && TextOfUrl(rs', u) == TextOfUrl(rs, u)
        && ResourceOfUrl(rs', u) == ResourceOfUrl(rs, u)
  {
    var rs' := UpsertResource(rs, newId, now, name, url, fileType, uploadedBy, text);
    forall u | u != url
      ensures IndexOfUrl(rs', u) == IndexOfUrl(rs, u) && IdOfUrl(rs', u) == IdOfUrl(rs, u) && TextOfUrl(rs', u) == TextOfUrl(rs, u)
      ensures ResourceOfUrl(rs', u) == ResourceOfUrl(rs, u)
    {
      assert forall j :: 0 <= j < |rs| ==> rs'[j].url == rs[j].url;
      match IndexOfUrl(rs, u)
      case Some(i) =>
        assert rs'[i] == rs[i];
        IndexOfUrlAt(rs', u, i);
      case None =>
        assert forall j :: 0 <= j < |rs'| ==> rs'[j].url != u;
    }
  }

  /** A URL present before an upsert is still present after it, under the same id. */
  lemma UpsertKeepsUrls(rs: seq<Resource>, newId: nat, now: nat, name: string, url: string,
                        fileType: string, uploadedBy: string, text: Option<string>)
    ensures forall u :: IdOfUrl(rs, u).Some? ==> IdOfUrl(UpsertResource(rs, newId, now, name, url, fileType, uploadedBy, text), u) == IdOfUrl(rs, u)
  {
    UpsertResourceEffect(rs, newId, now, name, url, fileType, uploadedBy, text);
    UpsertKeepsOtherUrls(rs, newId, now, name, url, fileType, uploadedBy, text);
  }

  lemma UpsertHasUrl(rs: seq<Resource>, newId: nat, now: nat, name: string, url: string,
                     fileType: string, uploadedBy: string, text: Option<string>)
    ensures IdOfUrl(UpsertResource(rs, newId, now, name, url, fileType, uploadedBy, text), url).Some?
  {
    UpsertResourceEffect(rs, newId, now, name, url, fileType, uploadedBy, text);
  }

  /**
    * The permission rows `add_resource` appends after the upsert: one
    * granting row from the uploader to the resource when a user has the
    * uploader's name, none otherwise.
    */
  function AutoGrant(users: seq<User>, uploadedBy: string, resourceId: nat, pid: nat): seq<Permission> {
    match FindUserByName(users, uploadedBy)
    case Some(u) => [Permission(pid, u.id, resourceId, true, uploadedBy)]
    case None => []
  }

  /**
    * At most one row is appended, exactly when some user has the uploader's
    * name; it grants that user access to the resource and carries the next
    * permission id.
    */
  lemma AutoGrantShape(users: seq<User>, uploadedBy: string, resourceId: nat, pid: nat)
    ensures var r := AutoGrant(users, uploadedBy, resourceId, pid);
      && |r| <= 1
      && (r != [] <==> exists u :: u in users && u.username == uploadedBy)
      && forall p :: p in r ==>
           && p.id == pid && p.canAccess && p.resourceId == resourceId && p.grantedBy == uploadedBy
           && exists u :: u in users && u.username == uploadedBy && u.id == p.userId
  {
  }

  /** The resources and permissions invariants after one `add_resource`, on values. */
  lemma AddKeepsOk(rs: seq<Resource>, nextRid: nat, now: nat, ps: seq<Permission>, nextPid: nat, users: seq<User>,
                   name: string, url: string, fileType: string, uploadedBy: string, text: Option<string>)
    requires ResourcesOk(rs, nextRid) && nextRid > 0
    requires PermissionsOk(ps, nextPid) && nextPid > 0
    ensures ResourcesOk(UpsertResource(rs, nextRid, now, name, url, fileType, uploadedBy, text),
                        if IndexOfUrl(rs, url).Some? then nextRid else nextRid + 1)
    ensures PermissionsOk(ps + AutoGrant(users, uploadedBy, UpsertedId(rs, nextRid, url), nextPid),
                          nextPid + |AutoGrant(users, uploadedBy, UpsertedId(rs, nextRid, url), nextPid)|)
  {
    UpsertKeepsResourcesOk(rs, nextRid, now, name, url, fileType, uploadedBy, text);
    var g := AutoGrant(users, uploadedBy, UpsertedId(rs, nextRid, url), nextPid);
    if g != [] {
      assert (ps + g)[..|ps|] == ps;
    } else {
      assert ps + g == ps;
    }
  }

  // ---------------------------------------------------------------------
  // get_user_accessible_resources
  // ---------------------------------------------------------------------

  /** SQLite `LIKE '[ERROR%'`: a prefix test that ignores ASCII case. */
  predicate ErrorTagged(text: string) {
    StartsWith(Lower(text), "[error")
  }

  /** `extracted_text IS NOT NULL AND extracted_text != '' AND extracted_text NOT LIKE '[ERROR%'` */
  predicate Listable(r: Resource) {
    r.extractedText.Some? && r.extractedText.value != "" && !ErrorTagged(r.extractedText.value)
  }

  /** The admin query: every listable resource, in table order. */
  function AdminVisible(rs: seq<Resource>): (r: seq<Resource>)
    ensures forall x :: x in r <==> x in rs && Listable(x)
    ensures |r| <= |rs|
  {
    if rs == [] then []
    else (if Listable(rs[0]) then [rs[0]] else []) + AdminVisible(rs[1..])
  }

  /** A permission row that lets `uid` read resource `rid`. */
  predicate Grants(p: Permission, uid: int, rid: int) {
    p.userId == uid && p.canAccess && p.resourceId == rid
  }

  /** The listable resources joined to one permission row's resource id. */
  function MatchingResources(rs: seq<Resource>, rid: int): (r: seq<Resource>)
    ensures forall x :: x in r <==> x in rs && x.id == rid && Listable(x)
  {
    if rs == [] then []
    else (if rs[0].id == rid && Listable(rs[0]) then [rs[0]] else []) + MatchingResources(rs[1..], rid)
  }

  /** Number of permission rows granting `uid` access to `rid`. */
  function GrantCount(ps: seq<Permission>, uid: int, rid: int): nat {
    if ps == [] then 0 else (if Grants(ps[0], uid, rid) then 1 else 0) + GrantCount(ps[1..], uid, rid)
  }

  /** Some row grants the access exactly when the count of granting rows is positive. */
  lemma {:induction false} GrantCountPositive(ps: seq<Permission>, uid: int, rid: int)
    ensures GrantCount(ps, uid, rid) > 0 <==> exists p :: p in ps && Grants(p, uid, rid)
  {
    if ps != [] {
      GrantCountPositive(ps[1..], uid, rid);
      assert ps == [ps[0]] + ps[1..];
    }
  }

  /** The user query: one result row per (granting permission row, listable resource) pair, in permission order. */
  function GrantedJoin(rs: seq<Resource>, ps: seq<Permission>, uid: int): (r: seq<Resource>)
    ensures forall x :: x in r <==> x in rs && Listable(x) && GrantCount(ps, uid, x.id) > 0
  {
    if ps == [] then []
    else
      var head := if ps[0].userId == uid && ps[0].canAccess then MatchingResources(rs, ps[0].resourceId) else [];
      head + GrantedJoin(rs, ps[1..], uid)
  }

  /** `get_user_accessible_resources(user_id)` */
  function AccessibleResources(users: seq<User>, rs: seq<Resource>, ps: seq<Permission>, uid: int): seq<Resource> {
    if RoleOf(users, uid) == "admin" then AdminVisible(rs) else GrantedJoin(rs, ps, uid)
  }

  /**
    * The resolver's two rules: an admin sees exactly the listable resources;
    * anybody else (an unknown id included) sees exactly the listable
    * resources some permission row grants them.
    */
  lemma ResolveRule(users: seq<User>, rs: seq<Resource>, ps: seq<Permission>, uid: int, x: Resource)
    ensures RoleOf(users, uid) == "admin" ==> (x in AccessibleResources(users, rs, ps, uid) <==> x in rs && Listable(x))
    ensures RoleOf(users, uid) != "admin" ==>
      (x in AccessibleResources(users, rs, ps, uid) <==> x in rs && Listable(x) && exists p :: p in ps && Grants(p, uid, x.id))
  {
    GrantCountPositive(ps, uid, x.id);
  }

  lemma {:induction false} MatchingMultiplicity(rs: seq<Resource>, rid: int, x: Resource)
    requires ResourceIdsIncrease(rs)
    requires x in rs && Listable(x)
    ensures multiset(MatchingResources(rs, rid))[x] == if x.id == rid then 1 else 0
  {
    if rs[0] == x {
      assert x !in rs[1..] by {
        forall j | 1 <= j < |rs| ensures rs[j] != x { assert rs[0].id < rs[j].id; }
      }
      assert x !in MatchingResources(rs[1..], rid);
    } else {
      MatchingMultiplicity(rs[1..], rid, x);
    }
  }

  /** Duplicates: a non-admin receives a resource once per permission row granting it. */
  lemma {:induction false} JoinMultiplicity(rs: seq<Resource>, ps: seq<Permission>, uid: int, x: Resource)
    requires ResourceIdsIncrease(rs)
    requires x in rs && Listable(x)
    ensures multiset(GrantedJoin(rs, ps, uid))[x] == GrantCount(ps, uid, x.id)
  {
    if ps != [] {
      JoinMultiplicity(rs, ps[1..], uid, x);
      if ps[0].userId == uid && ps[0].canAccess {
        MatchingMultiplicity(rs, ps[0].resourceId, x);
      }
    }
  }

  /** Appending permission rows only appends join results. */
  lemma {:induction false} JoinGrowsByAppend(rs: seq<Resource>, ps: seq<Permission>, extra: seq<Permission>, uid: int)
    ensures GrantedJoin(rs, ps + extra, uid) == GrantedJoin(rs, ps, uid) + GrantedJoin(rs, extra, uid)
  {
    if ps == [] {
      assert ps + extra == extra;
    } else {
      assert (ps + extra)[1..] == ps[1..] + extra;
      JoinGrowsByAppend(rs, ps[1..], extra, uid);
    }
  }

  /**
    * A revoke is an appended row with can_access FALSE, so it never takes away
    * a resource the user could read before it: the earlier grant row stays.
    */
  lemma RevokeKeepsEarlierAccess(users: seq<User>, rs: seq<Resource>, ps: seq<Permission>, revoke: Permission, uid: int, x: Resource)
    requires !revoke.canAccess
    requires x in AccessibleResources(users, rs, ps, uid)
    ensures x in AccessibleResources(users, rs, ps + [revoke], uid)
  {
    JoinGrowsByAppend(rs, ps, [revoke], uid);
  }

  // ---------------------------------------------------------------------
  // get_user_permissions and get_chat_history
  // ---------------------------------------------------------------------

  /** `SELECT p.id, p.resource_id, p.can_access, r.name, p.granted_by FROM permissions p JOIN resources r ... WHERE p.user_id = ?` */
  function UserPermissions(ps: seq<Permission>, rs: seq<Resource>, uid: int): (r: seq<PermissionView>)
    ensures forall v :: v in r ==> exists p, x :: p in ps && x in rs && p.userId == uid && p.resourceId == x.id
                                      && v == PermissionView(p.id, p.resourceId, p.canAccess, x.name, p.grantedBy)
    ensures forall p, x :: p in ps && x in rs && p.userId == uid && p.resourceId == x.id ==>
                              PermissionView(p.id, p.resourceId, p.canAccess, x.name, p.grantedBy) in r
  {
    if ps == [] then []
    else
      var p := ps[0];
      var head := if p.userId == uid then ViewsFor(p, rs) else [];
      head + UserPermissions(ps[1..], rs, uid)
  }

  function ViewsFor(p: Permission, rs: seq<Resource>): (r: seq<PermissionView>)
    ensures forall v :: v in r <==> exists x :: x in rs && p.resourceId == x.id
                                      && v == PermissionView(p.id, p.resourceId, p.canAccess, x.name, p.grantedBy)
  {
    if rs == [] then []
    else
      var rest := ViewsFor(p, rs[1..]);
      if rs[0].id == p.resourceId then
        assert rs[0] in rs;
        [PermissionView(p.id, p.resourceId, p.canAccess, rs[0].name, p.grantedBy)] + rest
      else rest
  }

  function Reverse<T>(s: seq<T>): (r: seq<T>)
    ensures |r| == |s|
    ensures forall i :: 0 <= i < |s| ==> r[i] == s[|s| - 1 - i]
  {
    if s == [] then [] else Reverse(s[1..]) + [s[0]]
  }

  /** The user's rows, oldest first. */
  function RowsOf(cs: seq<ChatRow>, uid: int): (r: seq<ChatRow>)
    ensures forall c :: c in r <==> c in cs && c.userId == uid
    ensures |r| <= |cs|
  {
    if cs == [] then []
    else
      var last := cs[|cs| - 1];
      assert cs == cs[..|cs| - 1] + [last];
      RowsOf(cs[..|cs| - 1], uid) + (if last.userId == uid then [last] else [])
  }

  /**
    * `SELECT message, response FROM chat_history WHERE user_id = ? ORDER BY
    * timestamp DESC LIMIT ?`, newest first by id; SQLite treats a negative
    * LIMIT as no limit.
    */
  function ChatHistory(cs: seq<ChatRow>, uid: int, limit: int): (r: seq<(string, string)>)
    ensures limit >= 0 ==> |r| <= limit
    ensures |r| <= |cs|
  {
    var newest := Reverse(RowsOf(cs, uid));
    var kept := if 0 <= limit < |newest| then newest[..limit] else newest;
    seq(|kept|, i requires 0 <= i < |kept| => (kept[i].message, kept[i].response))
  }

  lemma RowsOfAppend(cs: seq<ChatRow>, c: ChatRow, uid: int)
    ensures RowsOf(cs + [c], uid) == RowsOf(cs, uid) + (if c.userId == uid then [c] else [])
  {
    assert (cs + [c])[..|cs|] == cs;
  }

  /** The exchange saved last is the first one `get_chat_history` returns, for any positive limit. */
  lemma NewestFirst(cs: seq<ChatRow>, c: ChatRow, limit: int)
    requires limit != 0
    ensures var h := ChatHistory(cs + [c], c.userId, limit);
      |h| > 0 && h[0] == (c.message, c.response)
  {
    RowsOfAppend(cs, c, c.userId);
  }

  // ---------------------------------------------------------------------
  // Row filters used by the deleting writers
  // ---------------------------------------------------------------------

  /** The rows a `DELETE ... WHERE` leaves: those failing the condition, in their order. */
  function Filter<T(!new)>(s: seq<T>, keep: T -> bool): (r: seq<T>)
    ensures forall x :: x in r <==> x in s && keep(x)
    ensures |r| <= |s|
  {
    if s == [] then []
    else (if keep(s[0]) then [s[0]] else []) + Filter(s[1..], keep)
  }

  /** A relation that holds between every earlier and later row still holds after filtering. */
  lemma {:induction false} FilterKeepsOrder<T(!new)>(s: seq<T>, keep: T -> bool, before: (T, T) -> bool, r: seq<T>)
    requires forall i, j :: 0 <= i < j < |s| ==> before(s[i], s[j])
    requires r == Filter(s, keep)
    ensures forall i, j :: 0 <= i < j < |r| ==> before(r[i], r[j])
  {
    if s != [] {
      var tail := s[1..];
      assert forall i, j :: 0 <= i < j < |tail| ==> before(tail[i], tail[j]) by {
        forall i, j | 0 <= i < j < |tail| ensures before(tail[i], tail[j]) {
          assert tail[i] == s[i + 1] && tail[j] == s[j + 1];
        }
      }
      var rest := Filter(tail, keep);
      FilterKeepsOrder(tail, keep, before, rest);
      if keep(s[0]) {
        assert r == [s[0]] + rest;
        forall i, j | 0 <= i < j < |r| ensures before(r[i], r[j]) {
          if i == 0 {
            assert r[j] == rest[j - 1] && rest[j - 1] in tail;
            var k :| 0 <= k < |tail| && tail[k] == rest[j - 1];
            assert r[0] == s[0] && r[j] == s[k + 1];
            assert before(s[0], s[k + 1]);
          } else {
            assert r[i] == rest[i - 1] && r[j] == rest[j - 1];
            assert before(rest[i - 1], rest[j - 1]);
          }
        }
      } else {
        assert r == rest;
      }
    }
  }

  function UsersWithout(users: seq<User>, id: int): (r: seq<User>)
    ensures forall u :: u in r <==> u in users && u.id != id
  {
    Filter(users, (u: User) => u.id != id)
  }

  /** Deleting rows keeps the users table invariant. */
  lemma UsersWithoutOk(users: seq<User>, id: int, next: nat)
    requires UsersOk(users, next)
    ensures UsersOk(UsersWithout(users, id), next)
  {
    var keep := (u: User) => u.id != id;
    var r := UsersWithout(users, id);
    FilterKeepsOrder(users, keep, (a: User, b: User) => a.id < b.id, r);
    FilterKeepsOrder(users, keep, (a: User, b: User) => a.username != b.username, r);
    forall i | 0 <= i < |r| ensures 0 < r[i].id < next {
      assert r[i] in users;
    }
  }

  function ResourcesWithout(rs: seq<Resource>, id: int): (r: seq<Resource>)
    ensures forall x :: x in r <==> x in rs && x.id != id
  {
    Filter(rs, (x: Resource) => x.id != id)
  }

  /** Deleting rows keeps the resources table invariant. */
  lemma ResourcesWithoutOk(rs: seq<Resource>, id: int, next: nat)
    requires ResourcesOk(rs, next)
    ensures ResourcesOk(ResourcesWithout(rs, id), next)
  {
    var keep := (x: Resource) => x.id != id;
    var r := ResourcesWithout(rs, id);
    FilterKeepsOrder(rs, keep, (a: Resource, b: Resource) => a.id < b.id, r);
    FilterKeepsOrder(rs, keep, (a: Resource, b: Resource) => a.url != b.url, r);
    forall i | 0 <= i < |r| ensures 0 < r[i].id < next {
      assert r[i] in rs;
    }
  }

  /** Number of resources whose is_accessed flag is set (the overview's "accessed" metric). */
  function AccessedCount(rs: seq<Resource>): (n: nat)
    ensures n == |Filter(rs, IsAccessed)|
    ensures n <= |rs|
  {
    if rs == [] then 0 else (if rs[0].isAccessed then 1 else 0) + AccessedCount(rs[1..])
  }

  predicate IsAccessed(r: Resource) {
    r.isAccessed
  }

  /** One row as `update_resource_access` leaves it: flagged and counted once more when it has the id. */
  function Touched(r: Resource, id: int): Resource {
    if r.id == id then r.(isAccessed := true, accessCount := r.accessCount + 1) else r
  }

  /** The table after `update_resource_access(id)`. */
  function MarkAccessed(rs: seq<Resource>, id: int): (r: seq<Resource>)
    ensures |r| == |rs|
    ensures forall i :: 0 <= i < |rs| ==> r[i] == Touched(rs[i], id)
  {
    if rs == [] then [] else [Touched(rs[0], id)] + MarkAccessed(rs[1..], id)
  }

  /** Rows with the id whose flag is still clear. */
  function UnaccessedWithId(rs: seq<Resource>, id: int): nat {
    if rs == [] then 0 else (if rs[0].id == id && !rs[0].isAccessed then 1 else 0) + UnaccessedWithId(rs[1..], id)
  }

  /** Marking raises the accessed count by the number of rows with the id not yet accessed. */
  lemma {:induction false} MarkAccessedCount(rs: seq<Resource>, id: int)
    ensures AccessedCount(MarkAccessed(rs, id)) == AccessedCount(rs) + UnaccessedWithId(rs, id)
  {
    if rs != [] {
      assert MarkAccessed(rs, id)[1..] == MarkAccessed(rs[1..], id);
      MarkAccessedCount(rs[1..], id);
    }
  }

  lemma {:induction false} UnaccessedNone(rs: seq<Resource>, id: int)
    requires forall k :: 0 <= k < |rs| ==> rs[k].id != id
    ensures UnaccessedWithId(rs, id) == 0
  {
    if rs != [] {
      UnaccessedNone(rs[1..], id);
    }
  }

  lemma {:induction false} UnaccessedUnique(rs: seq<Resource>, id: int, i: nat)
    requires ResourceIdsIncrease(rs) && i < |rs| && rs[i].id == id
    ensures UnaccessedWithId(rs, id) == if rs[i].isAccessed then 0 else 1
  {
    if i == 0 {
      UnaccessedNone(rs[1..], id);
    } else {
      assert rs[0].id < rs[i].id;
      UnaccessedUnique(rs[1..], id, i - 1);
    }
  }

  /**
    * With ids unique, opening a resource raises the overview's "accessed"
    * figure by exactly one the first time and leaves it alone afterwards,
    * and an id with no row changes nothing.
    */
  lemma {:induction false} AccessRaisesCount(rs: seq<Resource>, id: int)
    requires ResourceIdsIncrease(rs)
    ensures forall i :: 0 <= i < |rs| && rs[i].id == id ==>
      AccessedCount(MarkAccessed(rs, id)) == AccessedCount(rs) + (if rs[i].isAccessed then 0 else 1)
    ensures (forall i :: 0 <= i < |rs| ==> rs[i].id != id) ==> AccessedCount(MarkAccessed(rs, id)) == AccessedCount(rs)
  {
    MarkAccessedCount(rs, id);
    forall i | 0 <= i < |rs| && rs[i].id == id
      ensures UnaccessedWithId(rs, id) == if rs[i].isAccessed then 0 else 1
    {
      UnaccessedUnique(rs, id, i);
    }
    if forall i :: 0 <= i < |rs| ==> rs[i].id != id {
      UnaccessedNone(rs, id);
    }
  }

  // ---------------------------------------------------------------------
  // The database
  // ---------------------------------------------------------------------

  class Database {
    /** `_hash_password` (SHA-256, hex): kept abstract. */
    const hash: string -> string
    var users: seq<User>
    var resources: seq<Resource>
    var permissions: seq<Permission>
    var chats: seq<ChatRow>
    var nextUserId: nat
    var nextResourceId: nat
    var nextPermissionId: nat
    var nextChatId: nat
    /** A monotone clock standing for CURRENT_TIMESTAMP. */
    var clock: nat

    ghost predicate Valid()
      reads this
    {
      && UsersOk(users, nextUserId) && nextUserId > 0
      && ResourcesOk(resources, nextResourceId) && nextResourceId > 0
      && PermissionsOk(permissions, nextPermissionId) && nextPermissionId > 0
      && ChatsOk(chats, nextChatId) && nextChatId > 0
    }

    /** `DatabaseManager(...)` on an empty file: the four tables and the default admin account. */
    constructor (hash: string -> string)
      ensures Valid()
      ensures this.hash == hash
      ensures users == [User(1, "admin", hash("admin123"), "admin")]
      ensures resources == [] && permissions == [] && chats == []
    {
      this.hash := hash;
      users, resources, permissions, chats := [], [], [], [];
      nextUserId, nextResourceId, nextPermissionId, nextChatId := 1, 1, 1, 1;
      clock := 0;
      new;
      InitDatabase();
    }

    /** `init_database` on existing tables: the admin account is created only when no user is named "admin". */
    method InitDatabase()
      requires Valid()
      modifies this
      ensures Valid()
      ensures FindUserByName(old(users), "admin").Some? ==> users == old(users)
      ensures FindUserByName(old(users), "admin").None? ==>
        users == old(users) + [User(old(nextUserId), "admin", hash("admin123"), "admin")]
      ensures resources == old(resources) && permissions == old(permissions) && chats == old(chats)
      ensures FindUserByName(users, "admin").Some?
      ensures nextResourceId == old(nextResourceId) && nextPermissionId == old(nextPermissionId)
      ensures nextChatId == old(nextChatId) && clock == old(clock)
    {
      if FindUserByName(users, "admin").None? {
        users := users + [User(nextUserId, "admin", hash("admin123"), "admin")];
        nextUserId := nextUserId + 1;
        assert users[|users| - 1].username == "admin";
      }
    }

    /** `create_user`: False, with nothing changed, when the username is taken (the UNIQUE constraint). */
    method CreateUser(username: string, password: string, role: string) returns (ok: bool)
      requires Valid()
      modifies this
      ensures Valid()
      ensures ok <==> FindUserByName(old(users), username).None?
      ensures ok ==> users == old(users) + [User(old(nextUserId), username, hash(password), role)]
      ensures !ok ==> users == old(users)
      ensures resources == old(resources) && permissions == old(permissions) && chats == old(chats)
    {
      if FindUserByName(users, username).Some? {
        return false;
      }
      users := users + [User(nextUserId, username, hash(password), role)];
      nextUserId := nextUserId + 1;
      ok := true;
    }

    /** `verify_user`: the row with that username whose stored hash is the password's hash. */
    function VerifyUser(username: string, password: string): (r: Option<User>)
      reads this
      ensures r.Some? ==> r.value in users && r.value.username == username && r.value.passwordHash == hash(password)
      ensures r.None? ==> forall u :: u in users ==> !(u.username == username && u.passwordHash == hash(password))
    {
      FindByCredentials(users, username, hash(password))
    }

    /** `update_user_role`: every row with that id takes the new role; nothing else changes. */
    method UpdateUserRole(userId: int, newRole: string) returns (ok: bool)
      requires Valid()
      modifies this
      ensures Valid() && ok
      ensures |users| == |old(users)|
      ensures forall i :: 0 <= i < |users| ==>
        users[i] == if old(users)[i].id == userId then old(users)[i].(role := newRole) else old(users)[i]
      ensures resources == old(resources) && permissions == old(permissions) && chats == old(chats)
    {
      users := seq(|users|, i requires 0 <= i < |users| reads this =>
        if users[i].id == userId then users[i].(role := newRole) else users[i]);
      ok := true;
    }

    /** `delete_user`: removes the user row only; its permission and chat rows stay. */
    method DeleteUser(userId: int) returns (ok: bool)
      requires Valid()
      modifies this
      ensures Valid() && ok
      ensures users == UsersWithout(old(users), userId)
      ensures resources == old(resources) && permissions == old(permissions) && chats == old(chats)
    {
      UsersWithoutOk(users, userId, nextUserId);
      users := UsersWithout(users, userId);
      ok := true;
    }

    /**
      * `add_resource`: upsert by URL, then, when the uploader's username
      * exists, append a granting permission row for the upserted resource
      * (another one on every call). `fails` stands for any SQLite error: the
      * transaction is rolled back and the result is False.
      */
    method AddResource(name: string, url: string, fileType: string, uploadedBy: string,
                       text: Option<string>, fails: bool) returns (ok: bool)
      requires Valid()
      modifies this
      ensures Valid()
      ensures ok == !fails
      ensures users == old(users) && chats == old(chats)
      ensures fails ==> unchanged(this)
      ensures !fails ==> resources == UpsertResource(old(resources), old(nextResourceId), old(clock), name, url, fileType, uploadedBy, text)
      ensures !fails ==> permissions == old(permissions) + AutoGrant(old(users), uploadedBy, UpsertedId(old(resources), old(nextResourceId), url), old(nextPermissionId))
    {
      if fails {
        return false;
      }
      var grant := AutoGrant(users, uploadedBy, UpsertedId(resources, nextResourceId, url), nextPermissionId);
      var rs := UpsertResource(resources, nextResourceId, clock, name, url, fileType, uploadedBy, text);
      var nextRid := if IndexOfUrl(resources, url).Some? then nextResourceId else nextResourceId + 1;
      AddKeepsOk(resources, nextResourceId, clock, permissions, nextPermissionId, users, name, url, fileType, uploadedBy, text);
      assert ResourcesOk(rs, nextRid) && PermissionsOk(permissions + grant, nextPermissionId + |grant|);
      resources, nextResourceId, clock := rs, nextRid, clock + 1;
      permissions, nextPermissionId := permissions + grant, nextPermissionId + |grant|;
      ok := true;
    }

    /** `delete_resource`: removes the resource row only; its permission rows stay. */
    method DeleteResource(resourceId: int) returns (ok: bool)
      requires Valid()
      modifies this
      ensures Valid() && ok
      ensures resources == ResourcesWithout(old(resources), resourceId)
      ensures users == old(users) && permissions == old(permissions) && chats == old(chats)
    {
      ResourcesWithoutOk(resources, resourceId, nextResourceId);
      resources := ResourcesWithout(resources, resourceId);
      ok := true;
    }

    /** `update_resource_access`: the row with that id becomes accessed and its counter goes up by exactly one. */
    method UpdateResourceAccess(resourceId: int) returns (ok: bool)
      requires Valid()
      modifies this
      ensures Valid() && ok
      ensures resources == MarkAccessed(old(resources), resourceId)
      ensures users == old(users) && permissions == old(permissions) && chats == old(chats)
    {
      resources := MarkAccessed(resources, resourceId);
      ok := true;
    }

    /** `grant_permission`: always appends a granting row (there is no key for INSERT OR REPLACE to hit). */
    method GrantPermission(userId: int, resourceId: int, grantedBy: string) returns (ok: bool)
      requires Valid()
      modifies this
      ensures Valid() && ok
      ensures permissions == old(permissions) + [Permission(old(nextPermissionId), userId, resourceId, true, grantedBy)]
      ensures nextPermissionId == old(nextPermissionId) + 1
      ensures users == old(users) && resources == old(resources) && chats == old(chats)
    {
      var row := Permission(nextPermissionId, userId, resourceId, true, grantedBy);
      assert (permissions + [row])[..|permissions|] == permissions;
      permissions := permissions + [row];
      nextPermissionId := nextPermissionId + 1;
      ok := true;
    }

    /** `revoke_permission`: always appends a row with can_access FALSE; earlier rows are untouched. */
    method RevokePermission(userId: int, resourceId: int, revokedBy: string) returns (ok: bool)
      requires Valid()
      modifies this
      ensures Valid() && ok
      ensures permissions == old(permissions) + [Permission(old(nextPermissionId), userId, resourceId, false, revokedBy)]
      ensures nextPermissionId == old(nextPermissionId) + 1
      ensures users == old(users) && resources == old(resources) && chats == old(chats)
    {
      var row := Permission(nextPermissionId, userId, resourceId, false, revokedBy);
      assert (permissions + [row])[..|permissions|] == permissions;
      permissions := permissions + [row];
      nextPermissionId := nextPermissionId + 1;
      ok := true;
    }

    /** `save_chat_history`: appends one (user_id, message, response) row. */
    method SaveChatHistory(userId: int, message: string, response: string) returns (ok: bool)
      requires Valid()
      modifies this
      ensures Valid() && ok
      ensures chats == old(chats) + [ChatRow(old(nextChatId), userId, message, response)]
      ensures users == old(users) && resources == old(resources) && permissions == old(permissions)
    {
      chats := chats + [ChatRow(nextChatId, userId, message, response)];
      nextChatId := nextChatId + 1;
      ok := true;
    }
  }
}
