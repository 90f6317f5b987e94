/** The file manager: a breadcrumb path kept as two parallel lists (folder ids
    and folder names), the directory listing shown for it, and a selection. */
module FileManager {
  import opened Types
  import Kernel

  // ---------------------------------------------------------------------
  // Values the handlers compute
  // ---------------------------------------------------------------------

  /** `s.slice(0, end)`: a negative end counts from the back, and the end is
      clamped to the list. */
  function SliceTo<T>(s: seq<T>, end: int): (r: seq<T>)
    ensures |r| == (if end < 0 then (if |s| + end < 0 then 0 else |s| + end)
                    else if end > |s| then |s| else end)
    ensures r == s[..|r|]
  {
    var e := if end < 0 then |s| + end else end;
    if e < 0 then [] else if e > |s| then s else s[..e]
  }

  /** Dropping the last element undoes appending one. */
  lemma SliceDropsAppended<T>(s: seq<T>, x: T)
    ensures SliceTo(s + [x], -1) == s
  {
    assert (s + [x])[..|s|] == s;
  }

  function DigitChar(d: nat): char
    requires d < 10
  {
    ('0' as int + d) as char
  }

  /** A natural number in decimal, as template interpolation writes it. */
  function NatToString(n: nat): (s: string)
    ensures s != []
    ensures forall i | 0 <= i < |s| :: '0' <= s[i] <= '9'
    ensures s[0] == '0' ==> n == 0
  {
    if n < 10 then [DigitChar(n)] else NatToString(n / 10) + [DigitChar(n % 10)]
  }

  /** The value of a string of decimal digits. */
  function ParseDigits(s: string): nat
    requires forall i | 0 <= i < |s| :: '0' <= s[i] <= '9'
  {
    if s == [] then 0
    else ParseDigits(s[..|s| - 1]) * 10 + (s[|s| - 1] as int - '0' as int)
  }

  /** Reading the decimal text back gives the number. */
  lemma {:induction false} ParseNatToString(n: nat)
    ensures ParseDigits(NatToString(n)) == n
  {
    if n >= 10 {
      var s := NatToString(n);
      assert s[..|s| - 1] == NatToString(n / 10);
      ParseNatToString(n / 10);
    }
  }

  const NewFolderPrefix := "New Folder "

  /** The name of the folder created when the listing shows `count` items:
      the prefix followed by the decimal numeral of `count + 1`. */
  function NewFolderName(count: nat): (name: string)
    ensures |name| > |NewFolderPrefix| && name[..|NewFolderPrefix|] == NewFolderPrefix
    ensures forall i | |NewFolderPrefix| <= i < |name| :: '0' <= name[i] <= '9'
    ensures ParseDigits(name[|NewFolderPrefix|..]) == count + 1
  {
    var digits := NatToString(count + 1);
    ParseNatToString(count + 1);
    assert (NewFolderPrefix + digits)[|NewFolderPrefix|..] == digits;
    NewFolderPrefix + digits
  }

  /** The name tells the listing size apart: different sizes, different names. */
  lemma NewFolderNamesDiffer(m: nat, n: nat)
    requires m != n
    ensures NewFolderName(m) != NewFolderName(n)
  {
  }

  /** Double-clicking a folder of the listing shows that folder's contents,
      when it is the first item of the listing with its id. */
  lemma DescendShowsChildren(root: seq<FileItem>, path: seq<string>, j: int)
    requires Kernel.Resolve(root, path).Some?
    requires var d := Kernel.Resolve(root, path).value;
      0 <= j < |d| && d[j].kind == Folder && d[j].children.Some? && Kernel.IndexOfId(d, d[j].id) == j
    ensures var d := Kernel.Resolve(root, path).value;
      Kernel.DirectoryAt(root, path + [d[j].id]) == d[j].children.value
  {
    var d := Kernel.Resolve(root, path).value;
    Kernel.ResolveSnoc(root, path, d[j].id);
  }

  // ---------------------------------------------------------------------
  // The window's state and its handlers
  // ---------------------------------------------------------------------

  class FileBrowser {
    const fs: Kernel.VirtualFileSystem
    var currentPathIds: seq<string>
    var pathNames: seq<string>
    var items: seq<FileItem>
    var selectedItem: Option<string>

    /** The breadcrumb has one name per folder id. */
    ghost predicate Valid()
      reads this
    {
      |currentPathIds| == |pathNames|
    }

    /** Opens at the root, after the mount effect's first listing. */
    constructor (fs: Kernel.VirtualFileSystem)
      ensures this.fs == fs && Valid()
      ensures currentPathIds == [] && pathNames == [] && selectedItem == None
      ensures items == fs.root
    {
      this.fs := fs;
      currentPathIds := [];
      pathNames := [];
      selectedItem := None;
      items := fs.root;
    }

    /** Reads the listing of the current path again. */
    method Refresh()
      modifies this`items
      ensures items == Kernel.DirectoryAt(fs.root, currentPathIds)
    {
      items := fs.GetDirectory(currentPathIds);
    }

    /** A double-click descends into a folder; on a file nothing happens. */
    method DoubleClick(item: FileItem)
      requires Valid()
      modifies this`currentPathIds, this`pathNames, this`items
      ensures Valid()
      ensures item.kind == Folder ==>
        && currentPathIds == old(currentPathIds) + [item.id]
        && pathNames == old(pathNames) + [item.name]
        && items == Kernel.DirectoryAt(fs.root, currentPathIds)
      ensures item.kind == File ==> currentPathIds == old(currentPathIds) && pathNames == old(pathNames) && items == old(items)
    {
      if item.kind == Folder {
        currentPathIds := currentPathIds + [item.id];
        pathNames := pathNames + [item.name];
        Refresh();
      }
    }

    /** The back button drops the last folder of the path; at the root it
        does nothing. */
    method NavigateUp()
      requires Valid()
      modifies this`currentPathIds, this`pathNames, this`items
      ensures Valid()
      ensures old(currentPathIds) != [] ==>
        && currentPathIds == old(currentPathIds)[..|old(currentPathIds)| - 1]
        && pathNames == old(pathNames)[..|old(pathNames)| - 1]
        && items == Kernel.DirectoryAt(fs.root, currentPathIds)
      ensures old(currentPathIds) == [] ==> currentPathIds == [] && pathNames == [] && items == old(items)
    {
      if |currentPathIds| > 0 {
        currentPathIds := SliceTo(currentPathIds, -1);
        pathNames := SliceTo(pathNames, -1);
        Refresh();
      }
    }

    /** A click on the breadcrumb at `index` keeps the path up to and
        including that folder. */
    method BreadcrumbClick(index: nat)
      requires Valid() && index < |pathNames|
      modifies this`currentPathIds, this`pathNames, this`items
      ensures Valid()
      ensures currentPathIds == old(currentPathIds)[..index + 1]
      ensures pathNames == old(pathNames)[..index + 1]
      ensures items == Kernel.DirectoryAt(fs.root, currentPathIds)
    {
      currentPathIds := SliceTo(currentPathIds, index + 1);
      pathNames := SliceTo(pathNames, index + 1);
      Refresh();
    }

    /** "Home" in the breadcrumb and "Nexus Drive" in the sidebar both go back
        to the root. */
    method GoHome()
      modifies this`currentPathIds, this`pathNames, this`items
      ensures Valid()
      ensures currentPathIds == [] && pathNames == []
      ensures items == fs.root
    {
      currentPathIds := [];
      pathNames := [];
      Refresh();
    }

    /** A click on an item selects it. */
    method Select(id: string)
      modifies this`selectedItem
      ensures selectedItem == Some(id)
    {
      selectedItem := Some(id);
    }

    /** A click on the empty grid clears the selection. */
    method ClearSelection()
      modifies this`selectedItem
      ensures selectedItem == None
    {
      selectedItem := None;
    }

    /** "New Folder": creates a folder named after the listing's size at the
        current path, then lists the path again. */
    method CreateFolder(freshId: string, today: string) returns (item: FileItem)
      modifies fs, this`items
      ensures item == FileItem(freshId, NewFolderName(|old(items)|), Folder, Some("--"), Some(today), Some([]), None)
      ensures fs.root == Kernel.Attach(old(fs.root), currentPathIds, item)
      ensures items == Kernel.DirectoryAt(fs.root, currentPathIds)
      ensures Kernel.Resolve(old(fs.root), currentPathIds).Some? ==>
        items == Kernel.DirectoryAt(old(fs.root), currentPathIds) + [item]
      ensures Kernel.Resolve(old(fs.root), currentPathIds).None? ==> fs.root == old(fs.root) && items == []
    {
      item := fs.CreateFolder(currentPathIds, NewFolderName(|items|), freshId, today);
      Refresh();
    }

    /** "Delete": with an item selected (a non-empty id), deletes it from the
        current directory, clears the selection and lists the path again;
        with no selection nothing happens. */
    method DeleteItem()
      modifies fs, this`items, this`selectedItem
      ensures old(selectedItem).None? || old(selectedItem) == Some("") ==>
        fs.root == old(fs.root) && items == old(items) && selectedItem == old(selectedItem)
      ensures old(selectedItem).Some? && old(selectedItem) != Some("") ==>
        && fs.root == Kernel.RemoveAt(old(fs.root), currentPathIds, old(selectedItem).value)
        && selectedItem == None
        && items == Kernel.DirectoryAt(fs.root, currentPathIds)
      ensures old(selectedItem).Some? && old(selectedItem) != Some("") && Kernel.Resolve(old(fs.root), currentPathIds).Some? ==>
        items == Kernel.RemoveFirst(Kernel.DirectoryAt(old(fs.root), currentPathIds), old(selectedItem).value)
    {
      if selectedItem.Some? && selectedItem.value != "" {
        fs.DeleteItem(currentPathIds, selectedItem.value);
        selectedItem := None;
        Refresh();
      }
    }
  }
}
