/**
 * The login page and project list of the entry page (main.py). Users live in a JSON file that
 * maps each username to its password; a user's projects are the JSON files of their project
 * directory, one "<name>.json" per project.
 */
module App {
  import opened Wrappers
  import opened Dicts
  import opened Strings
  import opened Document

  // ---------------------------------------------------------------- users

  /** The users file: username to stored password, in file order. */
  type UsersFile = Dict<string>

  const DuplicateUser: string := "Username already exists."
  const Registered: string := "Registration successful."

  /**
   * `authenticate_user`: `(true, username)` exactly when the user is in the file and the stored
   * password equals the given one, and `(false, None)` otherwise.
   */
  function Authenticate(users: UsersFile, username: string, password: string): (r: (bool, Option<string>))
    ensures r.0 <==> username in Keys(users) && Get(users, username) == Some(password)
    ensures r.1 == if r.0 then Some(username) else None
  {
    GetPresent(users, username);
    if Get(users, username) == Some(password) then (true, Some(username)) else (false, None)
  }

  /** `register_user` on the file's contents: the new file, the success flag and the message. */
  function Register(users: UsersFile, username: string, password: string): (UsersFile, bool, string) {
    if username in Keys(users) then (users, false, DuplicateUser)
    else (Put(users, username, password), true, Registered)
  }

  /**
   * Registration fails, with the duplicate message and the file unchanged, exactly when the
   * name is taken; otherwise it appends exactly that entry with the given password and every
   * other user keeps their entry.
   */
  lemma {:induction false} RegisterEffect(users: UsersFile, username: string, password: string)
    ensures var (after, ok, msg) := Register(users, username, password);
      && (ok <==> username !in Keys(users))
      && (!ok ==> after == users && msg == DuplicateUser)
      && (ok ==> after == users + [(username, password)] && msg == Registered)
      && (forall name :: name != username ==> Get(after, name) == Get(users, name))
  {
  }

  /** After a successful registration the same credentials log in. */
  lemma {:induction false} RegisterThenAuthenticate(users: UsersFile, username: string, password: string)
    requires username !in Keys(users)
    ensures Authenticate(Register(users, username, password).0, username, password) == (true, Some(username))
  {
    var after := Register(users, username, password).0;
    GetPresent(after, username);
  }

  /** A registration, successful or not, changes no other user's login. */
  lemma RegisterKeepsLogins(users: UsersFile, username: string, password: string, other: string, otherPassword: string)
    requires other != username
    ensures Authenticate(Register(users, username, password).0, other, otherPassword) == Authenticate(users, other, otherPassword)
  {
    var after := Register(users, username, password).0;
    GetPresent(after, other);
    GetPresent(users, other);
  }

  /** The users file, read and written back by `register_user`. */
  class UserStore {
    var users: UsersFile

    constructor (users: UsersFile)
      ensures this.users == users
    {
      this.users := users;
    }

    method RegisterUser(username: string, password: string) returns (ok: bool, msg: string)
      modifies this
      ensures (users, ok, msg) == Register(old(users), username, password)
    {
      if username in Keys(users) {
        return false, DuplicateUser;
      }
      users := Put(users, username, password);
      return true, Registered;
    }

    method AuthenticateUser(username: string, password: string) returns (ok: bool, who: Option<string>)
      ensures (ok, who) == Authenticate(users, username, password)
    {
      var stored := Get(users, username);
      if stored == Some(password) {
        GetPresent(users, username);
        return true, Some(username);
      }
      return false, None;
    }
  }

  // ---------------------------------------------------------------- the project list

  /** One row of the projects table. */
  datatype ListingRow = ListingRow(project: string, created: string, lastModified: string)

  /**
   * The row of one project file: a missing creation time is `now`, a missing modification time
   * the creation time, and a missing name the file name without ".json".
   */
  function RowOf(file: string, doc: Project, now: string): (r: ListingRow)
    ensures r.created == (if doc.createdAt.Some? then doc.createdAt.value else now)
    ensures r.lastModified == (if doc.lastModified.Some? then doc.lastModified.value else r.created)
    ensures r.project == (if doc.name.Some? then doc.name.value else ProjectNameOf(file))
  {
    var created := doc.createdAt.GetOr(now);
    ListingRow(doc.name.GetOr(ProjectNameOf(file)), created, doc.lastModified.GetOr(created))
  }

  /** The rows of the directory's ".json" files, in listing order. */
  function Rows(files: Dict<Project>, now: string): seq<ListingRow> {
    if files == [] then []
    else
      var n := |files| - 1;
      Rows(files[..n], now) + (if EndsWith(files[n].0, ".json") then [RowOf(files[n].0, files[n].1, now)] else [])
  }

  /** How many of the files the listing reads. */
  function JsonCount(files: Dict<Project>): nat {
    if files == [] then 0
    else
      var n := |files| - 1;
      JsonCount(files[..n]) + (if EndsWith(files[n].0, ".json") then 1 else 0)
  }

  /** One row per ".json" file, each built from that file with the defaults, and no other row. */
  lemma {:induction false} RowsFromFiles(files: Dict<Project>, now: string)
    ensures |Rows(files, now)| == JsonCount(files)
    ensures forall r :: r in Rows(files, now) <==>
      exists j :: 0 <= j < |files| && EndsWith(files[j].0, ".json") && r == RowOf(files[j].0, files[j].1, now)
  {
    if files != [] {
      var n := |files| - 1;
      RowsFromFiles(files[..n], now);
      forall r | r in Rows(files, now)
        ensures exists j :: 0 <= j < |files| && EndsWith(files[j].0, ".json") && r == RowOf(files[j].0, files[j].1, now)
      {
        if r in Rows(files[..n], now) {
          var j :| 0 <= j < n && EndsWith(files[..n][j].0, ".json") && r == RowOf(files[..n][j].0, files[..n][j].1, now);
          assert files[..n][j] == files[j];
        }
      }
      forall j | 0 <= j < |files| && EndsWith(files[j].0, ".json")
        ensures RowOf(files[j].0, files[j].1, now) in Rows(files, now)
      {
        if j < n {
          assert files[..n][j] == files[j];
        }
      }
    }
  }

  /** Which page opening a project leads to. */
  datatype Page = ProjectInput | Summary

  /**
   * The routing rule: the summary page exactly when the document holds a non-empty
   * "materials" and a non-empty "area_details", the input page otherwise.
   */
  function Route(doc: Project): (p: Page)
    ensures p == Summary <==> doc.materials.Some? && doc.materials.value != [] && doc.areaDetails.Some? && doc.areaDetails.value != []
  {
    var hasMaterials := doc.materials.Some? && doc.materials.value != [];
    var hasArea := doc.areaDetails.Some? && doc.areaDetails.value != [];
    if hasMaterials && hasArea then Summary else ProjectInput
  }

  /** The result of "Create Project". */
  datatype CreateResult = Created | BlankName | AlreadyExists

  /** The document written for a new project: name, both times `now`, house type and bedrooms. */
  function NewProject(name: string, houseType: string, numBedrooms: int, now: string): Project {
    EmptyProject.(name := Some(name), createdAt := Some(now), lastModified := Some(now),
                  houseType := Some(houseType), numBedrooms := Some(numBedrooms))
  }

  /** "Create Project": a blank name or an existing file is refused; otherwise "<name>.json" is written. */
  function Create(files: Dict<Project>, name: string, houseType: string, numBedrooms: int, now: string): (Dict<Project>, CreateResult) {
    if IsBlank(name) then (files, BlankName)
    else if name + ".json" in Keys(files) then (files, AlreadyExists)
    else (Put(files, name + ".json", NewProject(name, houseType, numBedrooms, now)), Created)
  }

  /**
   * Creation succeeds exactly for a non-blank name with no file yet; it then adds exactly that
   * file, created and modified at `now`; a refusal changes nothing.
   */
  lemma {:induction false} CreateEffect(files: Dict<Project>, name: string, houseType: string, numBedrooms: int, now: string)
    ensures var (after, result) := Create(files, name, houseType, numBedrooms, now);
      && (result == Created <==> !IsBlank(name) && name + ".json" !in Keys(files))
      && (result == BlankName <==> IsBlank(name))
      && (result != Created ==> after == files)
      && (result == Created ==>
            && after == files + [(name + ".json", NewProject(name, houseType, numBedrooms, now))]
            && Get(after, name + ".json").value.createdAt == Get(after, name + ".json").value.lastModified == Some(now))
  {
  }

  /** A name made only of non-ASCII spaces (a no-break space, an ideographic space) is refused as blank. */
  lemma UnicodeSpacesAreBlank(files: Dict<Project>, houseType: string, numBedrooms: int, now: string)
    ensures Create(files, "\U{00A0}\U{3000}\U{2009}", houseType, numBedrooms, now) == (files, BlankName)
  {
  }

  /** A project just created is listed under its name with `now` as both times, whatever the time of the listing. */
  lemma {:induction false} CreateThenList(files: Dict<Project>, name: string, houseType: string, numBedrooms: int, now: string, later: string)
    requires Create(files, name, houseType, numBedrooms, now).1 == Created
    ensures ListingRow(name, now, now) in Rows(Create(files, name, houseType, numBedrooms, now).0, later)
  {
    var file := name + ".json";
    var doc := NewProject(name, houseType, numBedrooms, now);
    var after := files + [(file, doc)];
    assert Create(files, name, houseType, numBedrooms, now).0 == after;
    assert EndsWith(file, ".json") by {
      assert file[|file| - 5..] == ".json";
    }
    assert after[..|files|] == files;
    assert Rows(after, later) == Rows(files, later) + [RowOf(file, doc, later)];
  }

  /** Opening a project just created leads to the input page. */
  lemma CreateThenOpen(files: Dict<Project>, name: string, houseType: string, numBedrooms: int, now: string)
    requires Create(files, name, houseType, numBedrooms, now).1 == Created
    ensures Open(Create(files, name, houseType, numBedrooms, now).0, name) == Some(ProjectInput)
  {
  }

  /** "Open Project": the selected name's file, routed; `None` when there is no such file. */
  function Open(files: Dict<Project>, selected: string): Option<Page> {
    match Get(files, selected + ".json")
    case None => None
    case Some(doc) => Some(Route(doc))
  }

  /** "Delete Project": removes the selected name's file; `false` when there is no such file. */
  function Delete(files: Dict<Project>, selected: string): (Dict<Project>, bool) {
    if selected + ".json" in Keys(files) then (Remove(files, selected + ".json"), true) else (files, false)
  }

  /** Deleting removes exactly the selected project's file and leaves every other file as it was. */
  lemma {:induction false} DeleteEffect(files: Dict<Project>, selected: string)
    ensures var (after, ok) := Delete(files, selected);
      && (ok <==> Get(files, selected + ".json").Some?)
      && Get(after, selected + ".json") == None
      && (forall file :: file != selected + ".json" ==> Get(after, file) == Get(files, file))
  {
    GetPresent(files, selected + ".json");
  }

  /** A user's project directory, listed, created into and deleted from by the project page. */
  class ProjectDir {
    var files: Dict<Project>

    constructor (files: Dict<Project>)
      ensures this.files == files
    {
      this.files := files;
    }

    /** The loop that reads every ".json" file into a row. */
    method ListRows(now: string) returns (rows: seq<ListingRow>)
      ensures rows == Rows(files, now)
    {
      rows := [];
      for j := 0 to |files|
        invariant rows == Rows(files[..j], now)
      {
        assert files[..j + 1][..j] == files[..j];
        var (file, doc) := files[j];
        if EndsWith(file, ".json") {
          var created := doc.createdAt.GetOr(now);
          rows := rows + [ListingRow(doc.name.GetOr(ProjectNameOf(file)), created, doc.lastModified.GetOr(created))];
        }
      }
      assert files[..|files|] == files;
    }

    method CreateProject(name: string, houseType: string, numBedrooms: int, now: string) returns (result: CreateResult)
      modifies this
      ensures (files, result) == Create(old(files), name, houseType, numBedrooms, now)
    {
      if IsBlank(name) {
        return BlankName;
      }
      if name + ".json" in Keys(files) {
        return AlreadyExists;
      }
      files := Put(files, name + ".json", NewProject(name, houseType, numBedrooms, now));
      return Created;
    }

    method DeleteProject(selected: string) returns (ok: bool)
      modifies this
      ensures (files, ok) == Delete(old(files), selected)
    {
      if selected + ".json" in Keys(files) {
        files := Remove(files, selected + ".json");
        return true;
      }
      return false;
    }
  }
}
