/** The kernel service: an in-memory folder tree, the system settings with a
    merge update, and the password check. The tree and the settings live in
    memory only; loading them from and saving them to browser storage is not
    part of this model. */
module Kernel {
  import opened Types

  // ---------------------------------------------------------------------
  // The folder tree, as values
  // ---------------------------------------------------------------------

  /** `findIndex(i => i.id === id)`: the first position holding the id, or -1. */
  function IndexOfId(dir: seq<FileItem>, id: string): (k: int)
    ensures -1 <= k < |dir|
    ensures k == -1 <==> forall i | 0 <= i < |dir| :: dir[i].id != id
    ensures k >= 0 ==> dir[k].id == id && forall i | 0 <= i < k :: dir[i].id != id
  {
    if dir == [] then -1
    else if dir[0].id == id then 0
    else
      var k := IndexOfId(dir[1..], id);
      if k == -1 then -1 else k + 1
  }

  /** The path walk may descend at position k: it is a folder that has a
      children list (an empty list counts). */
  predicate Descends(dir: seq<FileItem>, k: int) {
    0 <= k < |dir| && dir[k].kind == Folder && dir[k].children.Some?
  }

  /** The directory a path of folder ids leads to, if every step finds, as
      the first item with that id, a folder with a children list. */
  function Resolve(dir: seq<FileItem>, path: seq<string>): (r: Option<seq<FileItem>>)
    ensures path == [] ==> r == Some(dir)
    ensures path != [] && r.Some? ==> Descends(dir, IndexOfId(dir, path[0]))
    decreases |path|
  {
    if path == [] then Some(dir)
    else
      var k := IndexOfId(dir, path[0]);
      if Descends(dir, k) then Resolve(dir[k].children.value, path[1..]) else None
  }

  /** Extending a path by one id takes one more step of the walk from where
      the shorter path ends. */
  lemma {:induction false} ResolveSnoc(dir: seq<FileItem>, path: seq<string>, id: string)
    ensures Resolve(dir, path + [id]) ==
      match Resolve(dir, path)
      case None => None
      case Some(d) =>
        var k := IndexOfId(d, id);
        if Descends(d, k) then Some(d[k].children.value) else None
    decreases |path|
  {
    if path == [] {
      assert path + [id] == [id];
      assert [id][1..] == [];
    } else {
      assert (path + [id])[0] == path[0];
      assert (path + [id])[1..] == path[1..] + [id];
      var k := IndexOfId(dir, path[0]);
      if Descends(dir, k) {
        ResolveSnoc(dir[k].children.value, path[1..], id);
      }
    }
  }

  /** What `getDirectory` returns: the resolved directory, or an empty list. */
  function DirectoryAt(root: seq<FileItem>, path: seq<string>): seq<FileItem> {
    match Resolve(root, path)
    case Some(d) => d
    case None => []
  }

  /** The tree after pushing `item` onto the directory the path resolves to.
      On a path that does not resolve, the push goes into a detached empty
      list and the tree is unchanged. */
  function Attach(dir: seq<FileItem>, path: seq<string>, item: FileItem): (r: seq<FileItem>)
    ensures |r| == |dir| + (if path == [] then 1 else 0)
    ensures path != [] ==> forall i | 0 <= i < |dir| :: r[i].id == dir[i].id
    decreases |path|
  {
    if path == [] then dir + [item]
    else
      var k := IndexOfId(dir, path[0]);
      if Descends(dir, k) then
        dir[k := dir[k].(children := Some(Attach(dir[k].children.value, path[1..], item)))]
      else dir
  }

  /** `splice(findIndex(...), 1)` when the id is present. */
  function RemoveFirst(dir: seq<FileItem>, id: string): (r: seq<FileItem>)
    ensures |r| == if IndexOfId(dir, id) == -1 then |dir| else |dir| - 1
  {
    var k := IndexOfId(dir, id);
    if k == -1 then dir else dir[..k] + dir[k + 1..]
  }

  /** The tree after deleting the first item with `id` from the directory the
      path resolves to. */
  function RemoveAt(dir: seq<FileItem>, path: seq<string>, id: string): (r: seq<FileItem>)
    ensures path == [] ==> |r| <= |dir|
    ensures path != [] ==> |r| == |dir| && forall i | 0 <= i < |dir| :: r[i].id == dir[i].id
    decreases |path|
  {
    if path == [] then RemoveFirst(dir, id)
    else
      var k := IndexOfId(dir, path[0]);
      if Descends(dir, k) then
        dir[k := dir[k].(children := Some(RemoveAt(dir[k].children.value, path[1..], id)))]
      else dir
  }

  /** Replacing the item at the first match of an id by one with the same id
      leaves that match where it was. */
  lemma IndexOfIdAfterUpdate(dir: seq<FileItem>, id: string, item: FileItem)
    requires IndexOfId(dir, id) >= 0
    requires item.id == id
    ensures IndexOfId(dir[IndexOfId(dir, id) := item], id) == IndexOfId(dir, id)
  {
    var k := IndexOfId(dir, id);
    var d := dir[k := item];
    assert d[k].id == id;
    assert forall i | 0 <= i < k :: d[i] == dir[i];
  }

  /** Creating in a directory that resolves appends exactly one entry at its
      end; its earlier entries and their order are kept. */
  lemma {:induction false} AttachAppends(dir: seq<FileItem>, path: seq<string>, item: FileItem)
    requires Resolve(dir, path).Some?
    ensures Resolve(Attach(dir, path, item), path) == Some(Resolve(dir, path).value + [item])
    decreases |path|
  {
    if path != [] {
      var k := IndexOfId(dir, path[0]);
      var child := dir[k].(children := Some(Attach(dir[k].children.value, path[1..], item)));
      IndexOfIdAfterUpdate(dir, path[0], child);
      AttachAppends(dir[k].children.value, path[1..], item);
    }
  }

  /** Creating under a path that does not resolve leaves the tree unchanged. */
  lemma {:induction false} AttachUnresolved(dir: seq<FileItem>, path: seq<string>, item: FileItem)
    requires Resolve(dir, path).None?
    ensures Attach(dir, path, item) == dir
    decreases |path|
  {
    var k := IndexOfId(dir, path[0]);
    if Descends(dir, k) {
      AttachUnresolved(dir[k].children.value, path[1..], item);
      assert dir[k].(children := Some(dir[k].children.value)) == dir[k];
    }
  }

  /** Deleting in a directory that resolves removes the first entry with the
      id there, and nothing when the id is absent. */
  lemma {:induction false} RemoveAtRemoves(dir: seq<FileItem>, path: seq<string>, id: string)
    requires Resolve(dir, path).Some?
    ensures Resolve(RemoveAt(dir, path, id), path) == Some(RemoveFirst(Resolve(dir, path).value, id))
    decreases |path|
  {
    if path != [] {
      var k := IndexOfId(dir, path[0]);
      var child := dir[k].(children := Some(RemoveAt(dir[k].children.value, path[1..], id)));
      IndexOfIdAfterUpdate(dir, path[0], child);
      RemoveAtRemoves(dir[k].children.value, path[1..], id);
    }
  }

  /** Deleting under a path that does not resolve leaves the tree unchanged. */
  lemma {:induction false} RemoveAtUnresolved(dir: seq<FileItem>, path: seq<string>, id: string)
    requires Resolve(dir, path).None?
    ensures RemoveAt(dir, path, id) == dir
    decreases |path|
  {
    var k := IndexOfId(dir, path[0]);
    if Descends(dir, k) {
      RemoveAtUnresolved(dir[k].children.value, path[1..], id);
      assert dir[k].(children := Some(dir[k].children.value)) == dir[k];
    }
  }

  /** Deleting an id that the resolved directory does not hold leaves the
      whole tree unchanged. */
  lemma {:induction false} RemoveAtAbsent(dir: seq<FileItem>, path: seq<string>, id: string)
    requires Resolve(dir, path).Some? && IndexOfId(Resolve(dir, path).value, id) == -1
    ensures RemoveAt(dir, path, id) == dir
    decreases |path|
  {
    if path != [] {
      var k := IndexOfId(dir, path[0]);
      RemoveAtAbsent(dir[k].children.value, path[1..], id);
      assert dir[k].(children := Some(dir[k].children.value)) == dir[k];
    }
  }

  /** Two directories with the same ids at the same positions find every id
      at the same position. */
  lemma {:induction false} IndexOfIdSameIds(a: seq<FileItem>, b: seq<FileItem>, id: string)
    requires |a| == |b| && forall i | 0 <= i < |a| :: a[i].id == b[i].id
    ensures IndexOfId(a, id) == IndexOfId(b, id)
  {
    if a != [] {
      IndexOfIdSameIds(a[1..], b[1..], id);
    }
  }

  /** Creating changes no directory off the path: a path `q` that leaves
      `path` at step `m` resolves in the new tree as in the old one. */
  lemma {:induction false} AttachFrame(dir: seq<FileItem>, path: seq<string>, item: FileItem,
                                       q: seq<string>, m: nat)
    requires m < |path| && m < |q| && q[..m] == path[..m] && q[m] != path[m]
    ensures Resolve(Attach(dir, path, item), q) == Resolve(dir, q)
    decreases m
  {
    var r := Attach(dir, path, item);
    var k := IndexOfId(dir, path[0]);
    if Descends(dir, k) {
      IndexOfIdSameIds(r, dir, q[0]);
      var j := IndexOfId(dir, q[0]);
      if m == 0 {
        assert j != k;
        assert 0 <= j ==> r[j] == dir[j];
      } else {
        assert q[0] == q[..m][0] == path[..m][0] == path[0];
        assert q[1..][..m - 1] == path[1..][..m - 1];
        AttachFrame(dir[k].children.value, path[1..], item, q[1..], m - 1);
      }
    }
  }

  /** Deleting changes no directory off the path: a path `q` that leaves
      `path` at step `m` resolves in the new tree as in the old one. */
  lemma {:induction false} RemoveAtFrame(dir: seq<FileItem>, path: seq<string>, id: string,
                                         q: seq<string>, m: nat)
    requires m < |path| && m < |q| && q[..m] == path[..m] && q[m] != path[m]
    ensures Resolve(RemoveAt(dir, path, id), q) == Resolve(dir, q)
    decreases m
  {
    var r := RemoveAt(dir, path, id);
    var k := IndexOfId(dir, path[0]);
    if Descends(dir, k) {
      IndexOfIdSameIds(r, dir, q[0]);
      var j := IndexOfId(dir, q[0]);
      if m == 0 {
        assert j != k;
        assert 0 <= j ==> r[j] == dir[j];
      } else {
        assert q[0] == q[..m][0] == path[..m][0] == path[0];
        assert q[1..][..m - 1] == path[1..][..m - 1];
        RemoveAtFrame(dir[k].children.value, path[1..], id, q[1..], m - 1);
      }
    }
  }

  /** `RemoveFirst` takes out one copy of the first matching item, or nothing. */
  lemma RemoveFirstTakesOne(dir: seq<FileItem>, id: string)
    ensures IndexOfId(dir, id) == -1 ==> RemoveFirst(dir, id) == dir
    ensures IndexOfId(dir, id) >= 0 ==>
      && |RemoveFirst(dir, id)| == |dir| - 1
      && multiset(RemoveFirst(dir, id)) == multiset(dir) - multiset{dir[IndexOfId(dir, id)]}
      && RemoveFirst(dir, id)[..IndexOfId(dir, id)] == dir[..IndexOfId(dir, id)]
      && RemoveFirst(dir, id)[IndexOfId(dir, id)..] == dir[IndexOfId(dir, id) + 1..]
  {
    var k := IndexOfId(dir, id);
    if k >= 0 {
      SpliceOne(dir, k);
    }
  }

  /** `splice(k, 1)` on a sequence: one element fewer, the one at k, and the
      elements before and after it unchanged and in order. */
  lemma SpliceOne<T>(s: seq<T>, k: nat)
    requires k < |s|
    ensures |s[..k] + s[k + 1..]| == |s| - 1
    ensures multiset(s[..k] + s[k + 1..]) == multiset(s) - multiset{s[k]}
    ensures (s[..k] + s[k + 1..])[..k] == s[..k]
    ensures (s[..k] + s[k + 1..])[k..] == s[k + 1..]
  {
    assert s == s[..k] + [s[k]] + s[k + 1..];
  }

  /** The tree the system starts from when nothing is stored; `ids` stands
      for the UUIDs generated at load time. */
  function InitialFiles(ids: seq<string>): (r: seq<FileItem>)
    requires |ids| == 8
    ensures |r| == 3 && forall i | 0 <= i < 3 :: r[i].kind == Folder && r[i].children.Some?
  {
    [ FileItem(ids[0], "Sector_7", Folder, None, Some("2124-10-24"), Some([
        FileItem(ids[1], "Blueprint_X.cad", File, Some("128 MB"), Some("2124-10-24"), None, None),
        FileItem(ids[2], "Log_Entry_404.txt", File, Some("2 KB"), Some("2124-10-22"), None, None)]), None),
      FileItem(ids[3], "Media_Core", Folder, None, Some("2124-10-20"), Some([
        FileItem(ids[4], "Nebula_Scan.raw", File, Some("4.2 GB"), Some("2124-10-20"), None, None),
        FileItem(ids[5], "Avatar_Config.dat", File, Some("15 MB"), Some("2124-09-15"), None, None)]), None),
      FileItem(ids[6], "Root", Folder, None, Some("Today"), Some([
        FileItem(ids[7], "kernel_panic.log", File, Some("42 KB"), Some("Today"), None, None)]), None) ]
  }

  class VirtualFileSystem {
    var root: seq<FileItem>

    /** `stored` is the tree found in storage, if any. */
    constructor (stored: Option<seq<FileItem>>, initialIds: seq<string>)
      requires |initialIds| == 8
      ensures root == if stored.Some? then stored.value else InitialFiles(initialIds)
    {
      if stored.Some? {
        root := stored.value;
      } else {
        root := InitialFiles(initialIds);
      }
    }

    /** Walks the path one folder id at a time. */
    method GetDirectory(pathIds: seq<string>) returns (dir: seq<FileItem>)
      ensures dir == DirectoryAt(root, pathIds)
      ensures pathIds == [] ==> dir == root
    {
      if |pathIds| == 0 {
        return root;
      }
      var current := root;
      for i := 0 to |pathIds|
        invariant Resolve(root, pathIds) == Resolve(current, pathIds[i..])
      {
        var k := IndexOfId(current, pathIds[i]);
        if k >= 0 && current[k].kind == Folder && current[k].children.Some? {
          current := current[k].children.value;
        } else {
          return [];
        }
      }
      return current;
    }

    /** Creates an empty folder; `freshId` and `today` stand for the
        generated UUID and the current date. */
    method CreateFolder(pathIds: seq<string>, name: string, freshId: string, today: string)
      returns (item: FileItem)
      modifies this
      ensures item == FileItem(freshId, name, Folder, Some("--"), Some(today), Some([]), None)
      ensures root == Attach(old(root), pathIds, item)
      ensures Resolve(old(root), pathIds).Some? ==>
        Resolve(root, pathIds) == Some(Resolve(old(root), pathIds).value + [item])
      ensures Resolve(old(root), pathIds).None? ==> root == old(root)
    {
      item := FileItem(freshId, name, Folder, Some("--"), Some(today), Some([]), None);
      if Resolve(root, pathIds).Some? {
        AttachAppends(root, pathIds, item);
      } else {
        AttachUnresolved(root, pathIds, item);
      }
      root := Attach(root, pathIds, item);
    }

    /** Creates a file holding `content`. */
    method CreateFile(pathIds: seq<string>, name: string, freshId: string, today: string,
                      content: string := "")
      returns (item: FileItem)
      modifies this
      ensures item == FileItem(freshId, name, File, Some("1 KB"), Some(today), None, Some(content))
      ensures root == Attach(old(root), pathIds, item)
      ensures Resolve(old(root), pathIds).Some? ==>
        Resolve(root, pathIds) == Some(Resolve(old(root), pathIds).value + [item])
      ensures Resolve(old(root), pathIds).None? ==> root == old(root)
    {
      item := FileItem(freshId, name, File, Some("1 KB"), Some(today), None, Some(content));
      if Resolve(root, pathIds).Some? {
        AttachAppends(root, pathIds, item);
      } else {
        AttachUnresolved(root, pathIds, item);
      }
      root := Attach(root, pathIds, item);
    }

    /** Deletes the first item with `itemId` from the directory at the path. */
    method DeleteItem(pathIds: seq<string>, itemId: string)
      modifies this
      ensures root == RemoveAt(old(root), pathIds, itemId)
      ensures Resolve(old(root), pathIds).Some? ==>
        Resolve(root, pathIds) == Some(RemoveFirst(Resolve(old(root), pathIds).value, itemId))
      ensures Resolve(old(root), pathIds).None? ==> root == old(root)
      ensures Resolve(old(root), pathIds).Some? && IndexOfId(Resolve(old(root), pathIds).value, itemId) == -1 ==>
        root == old(root)
    {
      if Resolve(root, pathIds).Some? {
        RemoveAtRemoves(root, pathIds, itemId);
        if IndexOfId(Resolve(root, pathIds).value, itemId) == -1 {
          RemoveAtAbsent(root, pathIds, itemId);
        }
      } else {
        RemoveAtUnresolved(root, pathIds, itemId);
      }
      root := RemoveAt(root, pathIds, itemId);
    }
  }

  // ---------------------------------------------------------------------
  // Settings
  // ---------------------------------------------------------------------

  const DefaultSettings := SystemConfig(
    wifi := true, bluetooth := true, displayRes := 0, volume := 85, isMuted := false,
    security := true, performance := 1, language := 0, theme := 0, account := "Administrator")

  /** A partial configuration: the fields present are those to overwrite. */
  datatype SettingsPatch = SettingsPatch(
    wifi: Option<bool>,
    bluetooth: Option<bool>,
    displayRes: Option<int>,
    volume: Option<int>,
    isMuted: Option<bool>,
    security: Option<bool>,
    performance: Option<int>,
    language: Option<int>,
    theme: Option<int>,
    account: Option<string>)

  const NoChanges := SettingsPatch(None, None, None, None, None, None, None, None, None, None)

  /** A patch carrying every field of a configuration. */
  function Whole(c: SystemConfig): SettingsPatch {
    SettingsPatch(Some(c.wifi), Some(c.bluetooth), Some(c.displayRes), Some(c.volume),
                  Some(c.isMuted), Some(c.security), Some(c.performance), Some(c.language),
                  Some(c.theme), Some(c.account))
  }

  function Pick<T>(present: Option<T>, otherwise: T): T {
    if present.Some? then present.value else otherwise
  }

  /** `{ ...c, ...p }` */
  function Merge(c: SystemConfig, p: SettingsPatch): (r: SystemConfig)
    ensures Whole(r) == Then(Whole(c), p)
  {
    SystemConfig(
      Pick(p.wifi, c.wifi), Pick(p.bluetooth, c.bluetooth), Pick(p.displayRes, c.displayRes),
      Pick(p.volume, c.volume), Pick(p.isMuted, c.isMuted), Pick(p.security, c.security),
      Pick(p.performance, c.performance), Pick(p.language, c.language),
      Pick(p.theme, c.theme), Pick(p.account, c.account))
  }

  function Or<T>(later: Option<T>, earlier: Option<T>): Option<T> {
    if later.Some? then later else earlier
  }

  /** The patch that applies p and then q. */
  function Then(p: SettingsPatch, q: SettingsPatch): SettingsPatch {
    SettingsPatch(
      Or(q.wifi, p.wifi), Or(q.bluetooth, p.bluetooth), Or(q.displayRes, p.displayRes),
      Or(q.volume, p.volume), Or(q.isMuted, p.isMuted), Or(q.security, p.security),
      Or(q.performance, p.performance), Or(q.language, p.language),
      Or(q.theme, p.theme), Or(q.account, p.account))
  }

  /** An empty patch keeps the configuration; a whole one replaces it. */
  lemma MergeNothingOrWhole(c: SystemConfig, d: SystemConfig)
    ensures Merge(c, NoChanges) == c
    ensures Merge(c, Whole(d)) == d
  {
  }

  /** Updating twice with the same patch is updating once. */
  lemma MergeIdempotent(c: SystemConfig, p: SettingsPatch)
    ensures Merge(Merge(c, p), p) == Merge(c, p)
  {
  }

  /** Two updates in a row are one update with the later fields winning. */
  lemma MergeThen(c: SystemConfig, p: SettingsPatch, q: SettingsPatch)
    ensures Merge(Merge(c, p), q) == Merge(c, Then(p, q))
  {
  }

  class SettingsManager {
    var config: SystemConfig

    /** `stored` is the configuration found in storage, if any. */
    constructor (stored: Option<SystemConfig>)
      ensures config == if stored.Some? then stored.value else DefaultSettings
    {
      config := if stored.Some? then stored.value else DefaultSettings;
    }

    /** A copy of the current configuration. */
    method Get() returns (c: SystemConfig)
      ensures c == config
    {
      c := config;
    }

    /** Overwrites the fields present in the patch and keeps the others. */
    method Update(p: SettingsPatch)
      modifies this
      ensures config == Merge(old(config), p)
    {
      config := Merge(config, p);
    }
  }

  // ---------------------------------------------------------------------
  // Authentication and the service object
  // ---------------------------------------------------------------------

  const AcceptedPasswords: set<string> := {"admin", "1234"}

  /** The mock password check. */
  function Authenticate(password: string): (ok: bool)
    ensures ok <==> password in AcceptedPasswords
  {
    password == "admin" || password == "1234"
  }

  /** The single kernel object every application shares. */
  class KernelService {
    const fs: VirtualFileSystem
    const settings: SettingsManager

    constructor (storedTree: Option<seq<FileItem>>, initialIds: seq<string>,
                 storedSettings: Option<SystemConfig>)
      requires |initialIds| == 8
      ensures fresh(fs) && fresh(settings)
      ensures fs.root == if storedTree.Some? then storedTree.value else InitialFiles(initialIds)
      ensures settings.config == if storedSettings.Some? then storedSettings.value else DefaultSettings
    {
      fs := new VirtualFileSystem(storedTree, initialIds);
      settings := new SettingsManager(storedSettings);
    }
  }
}
