/**
  * The admin dashboard's actions: the overview figure of accessed
  * resources (`Store.AccessedCount`), the "Add Resource" routing between a
  * folder sync, a single-file sync and a plain database row, the option
  * strings of the multiselects and the id parsed back out of them, and the
  * bulk delete, role change, grant and revoke loops. An option that does
  * not parse raises inside the loop, which stops there with the changes
  * made so far kept.
  */
module AdminDashboard {
  import opened Text
  import opened Store
  import VectorIndex
  import Drive

  // ---------------------------------------------------------------------
  // Adding a resource
  // ---------------------------------------------------------------------

  /** What the status line shows. */
  datatype Status = Warning(text: string) | Success(text: string) | Failure(text: string)

  const MissingLinkOrName := "Please provide both resource link and name."
  const ResourceAdded := "Resource added successfully!"
  const ResourceNotAdded := "Failed to add resource. Please check the URL and try again."
  const AddingFailed := "Error adding resource: "

  /** Which of the three paths the button takes. */
  datatype Route = MissingInput | FolderSync | FileSync | PlainRow

  /** The button's checks, in order: both fields, then the folder pattern, then the file pattern. */
  function RouteOf(link: string, name: string): (r: Route)
    ensures r == MissingInput <==> link == "" || name == ""
    ensures r == FolderSync <==> link != "" && name != "" && Drive.IsGdriveFolder(link)
    ensures r == FileSync <==> link != "" && name != "" && !Drive.IsGdriveFolder(link) && Drive.IsGdriveFile(link)
    ensures r == PlainRow <==> link != "" && name != "" && !Drive.IsGdriveFolder(link) && !Drive.IsGdriveFile(link)
  {
    if link == "" || name == "" then MissingInput
    else if Drive.IsGdriveFolder(link) then FolderSync
    else if Drive.IsGdriveFile(link) then FileSync
    else PlainRow
  }

  /** A link with both markers is synced as a folder: the folder test comes first. */
  lemma FolderTestComesFirst()
    ensures Drive.IsGdriveFolder("/folders/a/file/d/b") && Drive.IsGdriveFile("/folders/a/file/d/b")
    ensures RouteOf("/folders/a/file/d/b", "n") == FolderSync
  {
    var s := "/folders/a/file/d/b";
    assert s[..9] == Drive.FolderMarker && s[9] == 'a';
    assert Drive.MatchAt(s, Drive.FolderMarker, 0);
    assert s[10..18] == Drive.FileMarker && s[18] == 'b';
    assert Drive.MatchAt(s, Drive.FileMarker, 10);
  }

  /** The uploader written into the row: the logged-in user's name, or "admin" when nobody is logged in. */
  function Uploader(currentUser: Option<User>): string {
    if currentUser.Some? then currentUser.value.username else "admin"
  }

  /** A sync report on the status line: "✅ " or "❌ " before its message. */
  function ShownReport(r: Drive.SyncReport): (s: Status)
    ensures s.Success? <==> r.success
  {
    if r.success then Success("✅ " + r.message) else Failure("❌ " + r.message)
  }

  /**
    * `handle_resource_addition` behind the button's field check. It first
    * opens the database, whose `init_database` adds the default "admin"
    * account (password "admin123") when no user has that name; then a
    * folder link is synced with "admin" as the uploader, a file link with
    * the logged-in user, and anything else becomes a row with no text. The
    * sync results come back as "✅ " or "❌ " before the report's message.
    * `setupError` is the message of an exception raised while the Drive
    * integration and its vector store are being set up, after the database
    * is opened and before any link is looked at: it is reported as "Error
    * adding resource: " and nothing else is written.
    */
  method AddResourceButton(db: Database, vs: VectorIndex.VectorStore, link: string, name: string, fileType: string,
                           currentUser: Option<User>, setupError: Option<string>, authOk: bool, listing: Drive.Listing,
                           meta: Drive.Metadata, faults: Drive.Faults, addFails: bool)
    returns (status: Status)
    requires db.Valid() && vs.Valid()
    modifies db, vs
    ensures db.Valid() && vs.Valid()
    ensures RouteOf(link, name) == MissingInput ==> status == Warning(MissingLinkOrName) && unchanged(db) && unchanged(vs)
    ensures RouteOf(link, name) != MissingInput ==>
      && FindUserByName(db.users, "admin").Some?
      && (FindUserByName(old(db.users), "admin").Some? ==> db.users == old(db.users))
      && (FindUserByName(old(db.users), "admin").None? ==>
            db.users == old(db.users) + [User(old(db.nextUserId), "admin", db.hash("admin123"), "admin")])
      && db.chats == old(db.chats)
    ensures RouteOf(link, name) != MissingInput && setupError.Some? ==>
      && status == Failure(AddingFailed + setupError.value)
      && db.resources == old(db.resources) && db.permissions == old(db.permissions) && unchanged(vs)
    ensures RouteOf(link, name) == FolderSync && setupError.None? ==>
      && (status.Success? <==> authOk && listing.Listed?
                               && exists f :: f in listing.files && Drive.Outcome(f, faults) == Drive.Processed)
      && status == ShownReport(Drive.FolderReport(status.Success?))
      && (!(authOk && listing.Listed?) ==>
            db.resources == old(db.resources) && db.permissions == old(db.permissions) && vs.entries == old(vs.entries))
      && (authOk && listing.Listed? ==>
            && Drive.AllStored(listing.files, faults, db.resources, vs.entries)
            && Drive.AllGranted(listing.files, faults, db.users, "admin", db.resources, db.permissions)
            && (Drive.DistinctIds(listing.files) ==> Drive.AllTexts(listing.files, faults, db.resources, vs.entries))
            && Drive.SyncFrame(listing.files, faults, old(db.resources), db.resources, old(vs.entries), vs.entries))
      && Drive.AppendsUploaderGrants(old(db.permissions), db.permissions, db.users, "admin")
      && Drive.KeepsUrls(old(db.resources), db.resources)
      && old(vs.entries).Keys <= vs.entries.Keys
    ensures RouteOf(link, name) == FileSync && setupError.None? ==>
      && (status.Success? <==> Drive.SingleFileSaves(link, authOk, meta, faults))
      && status == ShownReport(Drive.FileReport(status.Success?))
      && (!status.Success? ==>
            db.resources == old(db.resources) && db.permissions == old(db.permissions) && unchanged(vs))
      && (status.Success? ==>
            var text := Drive.SingleFileText(link, meta, faults);
            && db.resources == UpsertResource(old(db.resources), old(db.nextResourceId), old(db.clock), meta.name, link,
                                              Drive.GuessFileType(meta.name, meta.mimeType).value, Uploader(currentUser), Some(text))
            && db.permissions == old(db.permissions)
                 + AutoGrant(db.users, Uploader(currentUser), UpsertedId(old(db.resources), old(db.nextResourceId), link), old(db.nextPermissionId))
            && TextOfUrl(db.resources, link) == Some(text)
            && Drive.UploaderHolds(db.users, Uploader(currentUser), db.resources, db.permissions, link)
            && (faults.vectorFails(link) ==> vs.entries == old(vs.entries))
            && (!faults.vectorFails(link) ==> vs.entries == VectorIndex.UpsertEntry(old(vs.entries), meta.name, link, text)))
    ensures RouteOf(link, name) == PlainRow && setupError.None? ==>
      && vs.entries == old(vs.entries)
      && (addFails ==>
            status == Failure(ResourceNotAdded) && db.resources == old(db.resources) && db.permissions == old(db.permissions))
      && (!addFails ==>
            && status == Success(ResourceAdded)
            && db.resources == UpsertResource(old(db.resources), old(db.nextResourceId), old(db.clock), name, link,
                                              fileType, Uploader(currentUser), None)
            && db.permissions == old(db.permissions)
                 + AutoGrant(db.users, Uploader(currentUser), UpsertedId(old(db.resources), old(db.nextResourceId), link), old(db.nextPermissionId)))
  {
    var route := RouteOf(link, name);
    if route == MissingInput {
      return Warning(MissingLinkOrName);
    }
    db.InitDatabase();
    if setupError.Some? {
      return Failure(AddingFailed + setupError.value);
    }
    if route == FolderSync {
      var report := Drive.SyncFolderFromStreamlit(db, vs, link, "admin", authOk, listing, faults);
      status := ShownReport(report);
    } else if route == FileSync {
      var report := Drive.SyncSingleFileFromStreamlit(db, vs, link, Uploader(currentUser), authOk, meta, faults);
      status := ShownReport(report);
    } else {
      var added := db.AddResource(name, link, fileType, Uploader(currentUser), None, addFails);
      status := if added then Success(ResourceAdded) else Failure(ResourceNotAdded);
    }
  }

  /**
    * A plain link is stored without text, so a new one is never listed to
    * anybody, and re-adding a known link keeps the text it had (the
    * COALESCE in the upsert).
    */
  lemma PlainRowKeepsText(rs: seq<Resource>, newId: nat, now: nat, name: string, url: string, fileType: string, granter: string)
    ensures var rs' := UpsertResource(rs, newId, now, name, url, fileType, granter, None);
      && TextOfUrl(rs', url) == TextOfUrl(rs, url)
      && (IndexOfUrl(rs, url).None? ==> !Listable(rs'[|rs'| - 1]) && rs'[|rs'| - 1].url == url)
  {
    UpsertResourceEffect(rs, newId, now, name, url, fileType, granter, None);
  }

  // ---------------------------------------------------------------------
  // Option strings and the ids parsed back out of them
  // ---------------------------------------------------------------------

  const OptionSeparator := " - "

  /** `f"{id} - {username} ({role})"` */
  function UserOption(u: User): string {
    NatToString(u.id) + OptionSeparator + u.username + " (" + u.role + ")"
  }

  /** `f"{id} - {name}"` */
  function ResourceOption(r: Resource): string {
    NatToString(r.id) + OptionSeparator + r.name
  }

  /** `int(s.split(" - ")[0])`; None where `int` raises. */
  function ParseOptionId(s: string): Option<int> {
    ParseInt(FirstField(s, OptionSeparator))
  }

  /** Digits followed by the separator: the first field is exactly the digits. */
  lemma FirstFieldOfNumbered(digits: string, rest: string)
    requires AllDigits(digits)
    ensures FirstField(digits + OptionSeparator + rest, OptionSeparator) == digits
  {
    var s := digits + OptionSeparator + rest;
    assert s[|digits|..|digits| + 3] == OptionSeparator;
    assert OccursAt(s, OptionSeparator, |digits|);
    forall j | 0 <= j < |digits|
      ensures !OccursAt(s, OptionSeparator, j)
    {
      assert s[j..j + 3][0] == s[j] == digits[j];
    }
    var k := FindFrom(s, OptionSeparator, 0);
    assert k.Some? && k.value == |digits|;
    assert s[..|digits|] == digits;
  }

  /** The id parsed out of an option string is the id the string was built from, whatever the name holds. */
  lemma OptionRoundTrip(u: User, r: Resource)
    ensures ParseOptionId(UserOption(u)) == Some(u.id as int)
    ensures ParseOptionId(ResourceOption(r)) == Some(r.id as int)
  {
    FirstFieldOfNumbered(NatToString(u.id), u.username + " (" + u.role + ")");
    assert UserOption(u) == NatToString(u.id) + OptionSeparator + (u.username + " (" + u.role + ")");
    ParseIntOfNat(u.id);
    FirstFieldOfNumbered(NatToString(r.id), r.name);
    ParseIntOfNat(r.id);
  }

  /** Every option parses (so the loop over them does not raise). */
  predicate AllParse(parse: string -> Option<int>, options: seq<string>) {
    options == [] || (AllParse(parse, options[..|options| - 1]) && parse(options[|options| - 1]).Some?)
  }

  /** One option that does not parse is enough to make the loop raise. */
  lemma {:induction false} OneBadOption(parse: string -> Option<int>, options: seq<string>, k: nat)
    requires k < |options| && parse(options[k]).None?
    ensures !AllParse(parse, options)
  {
    if k < |options| - 1 {
      var init := options[..|options| - 1];
      assert init[k] == options[k];
      OneBadOption(parse, init, k);
    }
  }

  /** The parsed ids, with 0 standing in for an option that does not parse. */
  function Ids(parse: string -> Option<int>, options: seq<string>): (ids: seq<int>)
    ensures |ids| == |options|
  {
    if options == [] then []
    else
      var v := parse(options[|options| - 1]);
      Ids(parse, options[..|options| - 1]) + [if v.Some? then v.value else 0]
  }

  /** One more option extends the parse results by that option's. */
  lemma ParseStep(parse: string -> Option<int>, options: seq<string>, i: nat, v: int)
    requires i < |options| && parse(options[i]) == Some(v)
    ensures Ids(parse, options[..i + 1]) == Ids(parse, options[..i]) + [v]
    ensures AllParse(parse, options[..i]) ==> AllParse(parse, options[..i + 1])
  {
    assert options[..i + 1][..i] == options[..i];
  }

  /** The multiselect's own option list. */
  function UserOptions(users: seq<User>): (r: seq<string>)
    ensures |r| == |users|
  {
    if users == [] then [] else UserOptions(users[..|users| - 1]) + [UserOption(users[|users| - 1])]
  }

  function UserIds(users: seq<User>): (r: seq<int>)
    ensures |r| == |users|
  {
    if users == [] then [] else UserIds(users[..|users| - 1]) + [users[|users| - 1].id as int]
  }

  /** The options the page builds always parse back to the users' ids, so the bulk loops never stop early on them. */
  lemma {:induction false} UserOptionsParse(users: seq<User>)
    ensures AllParse(ParseOptionId, UserOptions(users))
    ensures Ids(ParseOptionId, UserOptions(users)) == UserIds(users)
  {
    if users != [] {
      var init := users[..|users| - 1];
      var last := users[|users| - 1];
      UserOptionsParse(init);
      OptionRoundTrip(last, Resource(0, "", "", "", "", 0, false, 0, None, None));
      var o := UserOptions(users);
      assert o[..|o| - 1] == UserOptions(init);
      assert o[|o| - 1] == UserOption(last);
    }
  }

  // ---------------------------------------------------------------------
  // Bulk user actions
  // ---------------------------------------------------------------------

  /** The loop of `delete_selected_users`, with the option parser as a parameter. */
  method DeleteParsed(db: Database, options: seq<string>, parse: string -> Option<int>) returns (ok: bool)
    requires db.Valid()
    modifies db
    ensures db.Valid()
    ensures ok <==> AllParse(parse, options)
    ensures ok ==> forall u :: u in db.users <==> u in old(db.users) && u.id !in Ids(parse, options)
    ensures forall u :: u in db.users ==> u in old(db.users)
    ensures unchanged(db`resources, db`permissions, db`chats)
  {
    var i := 0;
    while i < |options|
      invariant 0 <= i <= |options|
      invariant db.Valid()
      invariant AllParse(parse, options[..i])
      invariant forall u :: u in db.users <==> u in old(db.users) && u.id !in Ids(parse, options[..i])
      invariant unchanged(db`resources, db`permissions, db`chats)
    {
      var id := parse(options[i]);
      if id.None? {
        OneBadOption(parse, options, i);
        return false;
      }
      DeleteStep(parse, db.users, old(db.users), options, i, id.value);
      var _ := db.DeleteUser(id.value);
      i := i + 1;
    }
    assert options[..i] == options;
    ok := true;
  }

  /** One pass of the delete loop, on values. */
  lemma DeleteStep(parse: string -> Option<int>, users: seq<User>, original: seq<User>, options: seq<string>, i: nat, id: int)
    requires i < |options| && parse(options[i]) == Some(id)
    requires AllParse(parse, options[..i])
    requires forall u :: u in users <==> u in original && u.id !in Ids(parse, options[..i])
    ensures AllParse(parse, options[..i + 1])
    ensures forall u :: u in UsersWithout(users, id) <==> u in original && u.id !in Ids(parse, options[..i + 1])
  {
    ParseStep(parse, options, i, id);
  }

  /**
    * `delete_selected_users`: every selected id is deleted in turn; a bad
    * option stops the loop. Only user rows go: permission and chat rows of
    * the deleted users stay.
    */
  method DeleteSelectedUsers(db: Database, options: seq<string>) returns (ok: bool)
    requires db.Valid()
    modifies db
    ensures db.Valid()
    ensures ok <==> AllParse(ParseOptionId, options)
    ensures ok ==> forall u :: u in db.users <==> u in old(db.users) && u.id !in Ids(ParseOptionId, options)
    ensures forall u :: u in db.users ==> u in old(db.users)
    ensures unchanged(db`resources, db`permissions, db`chats)
  {
    ok := DeleteParsed(db, options, ParseOptionId);
  }

  /** The users table after giving every listed id a new role. */
  function WithRole(users: seq<User>, ids: seq<int>, role: string): (r: seq<User>)
    ensures |r| == |users|
    ensures forall k :: 0 <= k < |users| ==> r[k] == if users[k].id in ids then users[k].(role := role) else users[k]
  {
    seq(|users|, k requires 0 <= k < |users| => if users[k].id in ids then users[k].(role := role) else users[k])
  }

  /** The loop of `update_selected_user_roles`, with the option parser as a parameter. */
  method SetRoleParsed(db: Database, options: seq<string>, newRole: string, parse: string -> Option<int>) returns (ok: bool)
    requires db.Valid()
    modifies db
    ensures db.Valid()
    ensures ok <==> AllParse(parse, options)
    ensures ok ==> db.users == WithRole(old(db.users), Ids(parse, options), newRole)
    ensures |db.users| == |old(db.users)|
    ensures forall k :: 0 <= k < |db.users| ==> db.users[k].id == old(db.users)[k].id
    ensures unchanged(db`resources, db`permissions, db`chats)
  {
    var i := 0;
    while i < |options|
      invariant 0 <= i <= |options|
      invariant db.Valid()
      invariant AllParse(parse, options[..i])
      invariant db.users == WithRole(old(db.users), Ids(parse, options[..i]), newRole)
      invariant unchanged(db`resources, db`permissions, db`chats)
    {
      var id := parse(options[i]);
      if id.None? {
        OneBadOption(parse, options, i);
        return false;
      }
      RoleStep(parse, db.users, old(db.users), options, i, id.value, newRole);
      ghost var before := db.users;
      var _ := db.UpdateUserRole(id.value, newRole);
      assert db.users == WithRole(before, [id.value], newRole);
      i := i + 1;
    }
    assert options[..i] == options;
    ok := true;
  }

  /** One pass of the role loop, on values. */
  lemma RoleStep(parse: string -> Option<int>, users: seq<User>, original: seq<User>, options: seq<string>, i: nat, id: int, role: string)
    requires i < |options| && parse(options[i]) == Some(id)
    requires AllParse(parse, options[..i])
    requires users == WithRole(original, Ids(parse, options[..i]), role)
    ensures AllParse(parse, options[..i + 1])
    ensures WithRole(users, [id], role) == WithRole(original, Ids(parse, options[..i + 1]), role)
  {
    ParseStep(parse, options, i, id);
  }

  /**
    * `update_selected_user_roles`: every selected id gets the new role in
    * turn; a bad option stops the loop.
    */
  method UpdateSelectedUserRoles(db: Database, options: seq<string>, newRole: string) returns (ok: bool)
    requires db.Valid()
    modifies db
    ensures db.Valid()
    ensures ok <==> AllParse(ParseOptionId, options)
    ensures ok ==> db.users == WithRole(old(db.users), Ids(ParseOptionId, options), newRole)
    ensures |db.users| == |old(db.users)|
    ensures forall k :: 0 <= k < |db.users| ==> db.users[k].id == old(db.users)[k].id
    ensures unchanged(db`resources, db`permissions, db`chats)
  {
    ok := SetRoleParsed(db, options, newRole, ParseOptionId);
  }

  /**
    * Promoting users to "admin" makes each of them see every listable
    * resource, with no permission row involved.
    */
  lemma PromotionShowsEverything(users: seq<User>, ids: seq<int>, rs: seq<Resource>, ps: seq<Permission>, u: User, x: Resource)
    requires UserIdsIncrease(users)
    requires u in users && u.id in ids
    requires x in rs && Listable(x)
    ensures x in AccessibleResources(WithRole(users, ids, "admin"), rs, ps, u.id)
  {
    var promoted := WithRole(users, ids, "admin");
    var k :| 0 <= k < |users| && users[k] == u;
    assert promoted[k] == u.(role := "admin") && promoted[k] in promoted;
    assert UserIdsIncrease(promoted);
    assert RoleOf(promoted, u.id) == "admin";
    ResolveRule(promoted, rs, ps, u.id, x);
  }

  // ---------------------------------------------------------------------
  // Bulk grant and revoke
  // ---------------------------------------------------------------------

  /** The pairs one selected user forms with the selected resources. */
  function PairsFor(u: int, xs: seq<int>): (r: seq<(int, int)>)
    ensures |r| == |xs| && forall j :: 0 <= j < |xs| ==> r[j] == (u, xs[j])
  {
    seq(|xs|, j requires 0 <= j < |xs| => (u, xs[j]))
  }

  /** Users in the outer loop, resources in the inner one. */
  function Cartesian(us: seq<int>, xs: seq<int>): (r: seq<(int, int)>)
    ensures |r| == |us| * |xs|
  {
    if us == [] then [] else Cartesian(us[..|us| - 1], xs) + PairsFor(us[|us| - 1], xs)
  }

  /** Every selected (user, resource) pair is visited, and no other. */
  lemma {:induction false} CartesianMembership(us: seq<int>, xs: seq<int>, u: int, x: int)
    ensures (u, x) in Cartesian(us, xs) <==> u in us && x in xs
  {
    if us != [] {
      var init := us[..|us| - 1];
      CartesianMembership(init, xs, u, x);
      assert us == init + [us[|us| - 1]];
      if (u, x) in PairsFor(us[|us| - 1], xs) {
        var j :| 0 <= j < |xs| && PairsFor(us[|us| - 1], xs)[j] == (u, x);
        assert xs[j] == x;
      }
      if u == us[|us| - 1] && x in xs {
        var j :| 0 <= j < |xs| && xs[j] == x;
        assert PairsFor(u, xs)[j] == (u, x);
      }
    }
  }

  /** The rows the loop appends for the visited pairs, numbered from the table's next id. */
  function RowsFor(pairs: seq<(int, int)>, start: nat, canAccess: bool, granter: string): (r: seq<Permission>)
    ensures |r| == |pairs|
    ensures forall k :: 0 <= k < |pairs| ==> r[k] == Permission(start + k, pairs[k].0, pairs[k].1, canAccess, granter)
  {
    seq(|pairs|, k requires 0 <= k < |pairs| => Permission(start + k, pairs[k].0, pairs[k].1, canAccess, granter))
  }

  /**
    * The inner loop: one row for `uid` and each selected resource in turn;
    * a bad resource option stops it.
    */
  method ApplyRow(db: Database, uid: int, resourceOptions: seq<string>, granter: string, grant: bool,
                  parse: string -> Option<int>)
    returns (ok: bool)
    requires db.Valid()
    modifies db
    ensures db.Valid()
    ensures ok <==> AllParse(parse, resourceOptions)
    ensures ok ==> && db.permissions == old(db.permissions)
                        + RowsFor(PairsFor(uid, Ids(parse, resourceOptions)), old(db.nextPermissionId), grant, granter)
                   && db.nextPermissionId == old(db.nextPermissionId) + |resourceOptions|
    ensures old(db.permissions) <= db.permissions
    ensures db.users == old(db.users) && db.resources == old(db.resources) && db.chats == old(db.chats)
  {
    ghost var start := db.nextPermissionId;
    var j := 0;
    while j < |resourceOptions|
      invariant 0 <= j <= |resourceOptions|
      invariant db.Valid()
      invariant AllParse(parse, resourceOptions[..j])
      invariant db.permissions == old(db.permissions) + RowsFor(PairsFor(uid, Ids(parse, resourceOptions[..j])), start, grant, granter)
      invariant db.nextPermissionId == start + j
      invariant old(db.permissions) <= db.permissions
      invariant db.users == old(db.users) && db.resources == old(db.resources) && db.chats == old(db.chats)
    {
      var rid := parse(resourceOptions[j]);
      if rid.None? {
        OneBadOption(parse, resourceOptions, j);
        return false;
      }
      RowStep(parse, db.permissions, old(db.permissions), uid, resourceOptions, j, rid.value, start, grant, granter);
      AppendRow(db, uid, rid.value, granter, grant);
      j := j + 1;
    }
    assert resourceOptions[..j] == resourceOptions;
    ok := true;
  }

  /** `grant_permission` or `revoke_permission`, as `grant` says: one row appended. */
  method AppendRow(db: Database, uid: int, rid: int, granter: string, grant: bool)
    requires db.Valid()
    modifies db
    ensures db.Valid()
    ensures db.permissions == old(db.permissions) + [Permission(old(db.nextPermissionId), uid, rid, grant, granter)]
    ensures db.nextPermissionId == old(db.nextPermissionId) + 1
    ensures db.users == old(db.users) && db.resources == old(db.resources) && db.chats == old(db.chats)
  {
    if grant {
      var _ := db.GrantPermission(uid, rid, granter);
    } else {
      var _ := db.RevokePermission(uid, rid, granter);
    }
  }

  /** One pass of the inner loop, on values. */
  lemma RowStep(parse: string -> Option<int>, ps: seq<Permission>, original: seq<Permission>, uid: int, options: seq<string>, j: nat, rid: int,
                start: nat, grant: bool, granter: string)
    requires j < |options| && parse(options[j]) == Some(rid)
    requires AllParse(parse, options[..j])
    requires ps == original + RowsFor(PairsFor(uid, Ids(parse, options[..j])), start, grant, granter)
    ensures AllParse(parse, options[..j + 1])
    ensures ps + [Permission(start + j, uid, rid, grant, granter)]
         == original + RowsFor(PairsFor(uid, Ids(parse, options[..j + 1])), start, grant, granter)
  {
    ParseStep(parse, options, j, rid);
    var pairs := PairsFor(uid, Ids(parse, options[..j]));
    assert PairsFor(uid, Ids(parse, options[..j + 1])) == pairs + [(uid, rid)];
    RowsForSnoc(pairs, (uid, rid), start, grant, granter);
  }

  /**
    * The nested loop of `grant_batch_permissions` (`grant`) or
    * `revoke_batch_permissions` (not `grant`): one appended row per
    * (user, resource) pair, users outermost. A bad user option stops the
    * loop; a bad resource option stops it during the first user's pass.
    */
  method ApplyBatch(db: Database, userOptions: seq<string>, resourceOptions: seq<string>, granter: string, grant: bool,
                    parse: string -> Option<int>)
    returns (ok: bool)
    requires db.Valid()
    modifies db
    ensures db.Valid()
    ensures ok <==> AllParse(parse, userOptions) && (userOptions != [] ==> AllParse(parse, resourceOptions))
    ensures ok ==> db.permissions == old(db.permissions)
                    + RowsFor(Cartesian(Ids(parse, userOptions), Ids(parse, resourceOptions)), old(db.nextPermissionId), grant, granter)
    ensures old(db.permissions) <= db.permissions
    ensures unchanged(db`users, db`resources, db`chats)
  {
    ghost var xs := Ids(parse, resourceOptions);
    ghost var start := db.nextPermissionId;
    var i := 0;
    while i < |userOptions|
      invariant 0 <= i <= |userOptions|
      invariant db.Valid()
      invariant AllParse(parse, userOptions[..i])
      invariant i > 0 ==> AllParse(parse, resourceOptions)
      invariant db.permissions == old(db.permissions) + RowsFor(Cartesian(Ids(parse, userOptions[..i]), xs), start, grant, granter)
      invariant db.nextPermissionId == start + |Cartesian(Ids(parse, userOptions[..i]), xs)|
      invariant old(db.permissions) <= db.permissions
      invariant unchanged(db`users, db`resources, db`chats)
    {
      var uid := parse(userOptions[i]);
      if uid.None? {
        OneBadOption(parse, userOptions, i);
        return false;
      }
      var rowOk := ApplyRow(db, uid.value, resourceOptions, granter, grant, parse);
      if !rowOk {
        return false;
      }
      BatchStep(parse, old(db.permissions), userOptions, i, uid.value, xs, start, grant, granter);
      i := i + 1;
    }
    assert userOptions[..i] == userOptions;
    ok := true;
  }

  /** One pass of the outer loop, on values. */
  lemma BatchStep(parse: string -> Option<int>, original: seq<Permission>, options: seq<string>, i: nat, uid: int, xs: seq<int>,
                  start: nat, grant: bool, granter: string)
    requires i < |options| && parse(options[i]) == Some(uid)
    requires AllParse(parse, options[..i])
    ensures AllParse(parse, options[..i + 1])
    ensures var pairs := Cartesian(Ids(parse, options[..i]), xs);
      && original + RowsFor(pairs, start, grant, granter) + RowsFor(PairsFor(uid, xs), start + |pairs|, grant, granter)
         == original + RowsFor(Cartesian(Ids(parse, options[..i + 1]), xs), start, grant, granter)
      && |Cartesian(Ids(parse, options[..i + 1]), xs)| == |pairs| + |xs|
  {
    ParseStep(parse, options, i, uid);
    var pairs := Cartesian(Ids(parse, options[..i]), xs);
    CartesianStep(Ids(parse, options[..i]), uid, xs);
    RowsForAppend(pairs, PairsFor(uid, xs), start, grant, granter);
  }

  lemma CartesianStep(us: seq<int>, u: int, xs: seq<int>)
    ensures Cartesian(us + [u], xs) == Cartesian(us, xs) + PairsFor(u, xs)
  {
    assert (us + [u])[..|us|] == us;
  }

  lemma RowsForAppend(a: seq<(int, int)>, b: seq<(int, int)>, start: nat, canAccess: bool, granter: string)
    ensures RowsFor(a + b, start, canAccess, granter)
         == RowsFor(a, start, canAccess, granter) + RowsFor(b, start + |a|, canAccess, granter)
  {
  }

  lemma RowsForSnoc(pairs: seq<(int, int)>, p: (int, int), start: nat, canAccess: bool, granter: string)
    ensures RowsFor(pairs + [p], start, canAccess, granter)
         == RowsFor(pairs, start, canAccess, granter) + [Permission(start + |pairs|, p.0, p.1, canAccess, granter)]
  {
  }

  /** `grant_batch_permissions`, with the logged-in admin's name as the granter. */
  method GrantBatchPermissions(db: Database, userOptions: seq<string>, resourceOptions: seq<string>, granter: string)
    returns (ok: bool)
    requires db.Valid()
    modifies db
    ensures db.Valid()
    ensures ok <==> AllParse(ParseOptionId, userOptions) && (userOptions != [] ==> AllParse(ParseOptionId, resourceOptions))
    ensures ok ==> db.permissions == old(db.permissions)
                    + RowsFor(Cartesian(Ids(ParseOptionId, userOptions), Ids(ParseOptionId, resourceOptions)), old(db.nextPermissionId), true, granter)
    ensures old(db.permissions) <= db.permissions
    ensures unchanged(db`users, db`resources, db`chats)
  {
    ok := ApplyBatch(db, userOptions, resourceOptions, granter, true, ParseOptionId);
  }

  /** `revoke_batch_permissions`, with the logged-in admin's name on the revoking rows. */
  method RevokeBatchPermissions(db: Database, userOptions: seq<string>, resourceOptions: seq<string>, granter: string)
    returns (ok: bool)
    requires db.Valid()
    modifies db
    ensures db.Valid()
    ensures ok <==> AllParse(ParseOptionId, userOptions) && (userOptions != [] ==> AllParse(ParseOptionId, resourceOptions))
    ensures ok ==> db.permissions == old(db.permissions)
                    + RowsFor(Cartesian(Ids(ParseOptionId, userOptions), Ids(ParseOptionId, resourceOptions)), old(db.nextPermissionId), false, granter)
    ensures old(db.permissions) <= db.permissions
    ensures unchanged(db`users, db`resources, db`chats)
  {
    ok := ApplyBatch(db, userOptions, resourceOptions, granter, false, ParseOptionId);
  }

  /** After a batch grant, every selected user can read every selected listable resource. */
  lemma BatchGrantGivesAccess(users: seq<User>, rs: seq<Resource>, ps: seq<Permission>, us: seq<int>, xs: seq<int>,
                              start: nat, granter: string, uid: int, x: Resource)
    requires uid in us && x.id in xs
    requires x in rs && Listable(x)
    ensures x in AccessibleResources(users, rs, ps + RowsFor(Cartesian(us, xs), start, true, granter), uid)
  {
    var pairs := Cartesian(us, xs);
    var rows := RowsFor(pairs, start, true, granter);
    CartesianMembership(us, xs, uid, x.id);
    var k :| 0 <= k < |pairs| && pairs[k] == (uid, x.id as int);
    assert rows[k] in ps + rows && Grants(rows[k], uid, x.id);
    ResolveRule(users, rs, ps + rows, uid, x);
  }

  /** A batch revoke takes nothing away: whatever a user could read before, they can still read. */
  lemma BatchRevokeKeepsAccess(users: seq<User>, rs: seq<Resource>, ps: seq<Permission>, us: seq<int>, xs: seq<int>,
                               start: nat, granter: string, uid: int, x: Resource)
    requires x in AccessibleResources(users, rs, ps, uid)
    ensures x in AccessibleResources(users, rs, ps + RowsFor(Cartesian(us, xs), start, false, granter), uid)
  {
    JoinGrowsByAppend(rs, ps, RowsFor(Cartesian(us, xs), start, false, granter), uid);
  }
}
