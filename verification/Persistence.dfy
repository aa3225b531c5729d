/**
 internal/persistence/json.go over a file system that can crash. A crash keeps of
 the directory any choice of the changes made since it was last synced, and of a
 file not yet synced any contents at all. Every primitive leaves an image of what
 a crash right after it could keep, so that "at every step" is "in every image".
 */
module Persistence {
  import opened Wrappers

  type Name = string
  type Inode = nat
  type Bytes = seq<bv8>
  type Directory = map<Name, Inode>

  /** What a crash may keep: one of these directories, and of each file with stable
      contents exactly these. */
  datatype Image = Image(directories: set<Directory>, stable: map<Inode, Bytes>)

  /** What may be found under a name after a crash. */
  datatype Found = Absent | Present(bytes: Bytes)

  function Lookup(d: Directory, name: Name): Option<Inode> {
    if name in d then Some(d[name]) else None
  }

  predicate Shows(stable: map<Inode, Bytes>, inode: Option<Inode>, f: Found) {
    match inode
    case None => f == Absent
    case Some(i) => f.Present? && (i in stable ==> stable[i] == f.bytes)
  }

  /** After a crash that keeps `img`, f may be found under the name. */
  ghost predicate Survives(img: Image, name: Name, f: Found) {
    exists d: Directory | d in img.directories :: Shows(img.stable, Lookup(d, name), f)
  }

  // ---- the file system

  class Disk {
    /** The directory and the files as running programs see them. */
    var names: Directory
    var data: map<Inode, Bytes>
    var nextInode: Inode
    ghost var image: Image
    ghost var images: seq<Image>

    ghost predicate Valid()
      reads this
    {
      && names in image.directories
      && image.stable.Keys <= data.Keys
      && (forall i | i in data :: i < nextInode)
      && (forall d: Directory, n | d in image.directories && n in d :: d[n] in data)
    }

    /** Every change is seen by a crash right after it. */
    twostate predicate Logged(img: Image)
      reads this
    {
      image == img && images == old(images) + [img]
    }

    method Create(name: Name, fails: bool) returns (created: Option<Inode>)
      requires Valid() && name !in names
      modifies this
      ensures Valid()
      ensures fails ==>
                created == None && names == old(names) && data == old(data) && image == old(image)
                && images == old(images)
      ensures !fails ==>
                && created.Some? && created.value !in old(data)
                && names == old(names)[name := created.value] && data == old(data)[created.value := []]
                && Logged(old(image).(directories := Linked(old(image).directories, name, created.value)))
    {
      if fails {
        return None;
      }
      var i := nextInode;
      names, data, nextInode := names[name := i], data[i := []], nextInode + 1;
      image := image.(directories := Linked(image.directories, name, i));
      images := images + [image];
      return Some(i);
    }

    /** A write that fails may have written something else. */
    method Write(i: Inode, bytes: Bytes, fails: bool, partial: Bytes)
      requires Valid() && i in data
      modifies this
      ensures Valid() && names == old(names) && data == old(data)[i := if fails then partial else bytes]
      ensures Logged(old(image).(stable := old(image).stable - {i}))
    {
      data := data[i := if fails then partial else bytes];
      image := image.(stable := image.stable - {i});
      images := images + [image];
    }

    method Sync(i: Inode, fails: bool)
      requires Valid() && i in data
      modifies this
      ensures Valid() && names == old(names) && data == old(data)
      ensures Logged(if fails then old(image) else old(image).(stable := old(image).stable[i := data[i]]))
    {
      if !fails {
        image := image.(stable := image.stable[i := data[i]]);
      }
      images := images + [image];
    }

    method Rename(name: Name, to: Name, fails: bool)
      requires Valid() && name in names
      modifies this
      ensures Valid() && data == old(data)
      ensures names == if fails then old(names) else Moved(old(names), name, to, old(names)[name])
      ensures Logged(if fails then old(image)
                     else old(image).(directories := Relinked(old(image).directories, name, to, old(names)[name])))
    {
      if !fails {
        var i := names[name];
        names := Moved(names, name, to, i);
        image := image.(directories := Relinked(image.directories, name, to, i));
      }
      images := images + [image];
    }

    method Remove(name: Name, fails: bool)
      requires Valid()
      modifies this
      ensures Valid() && data == old(data) && names == if fails then old(names) else old(names) - {name}
      ensures Logged(if fails then old(image) else old(image).(directories := Unlinked(old(image).directories, name)))
    {
      if !fails {
        names := names - {name};
        image := image.(directories := Unlinked(image.directories, name));
      }
      images := images + [image];
    }

    /** syncDir: a sync that fails decides nothing. */
    method SyncDir(fails: bool)
      requires Valid()
      modifies this
      ensures Valid() && names == old(names) && data == old(data)
      ensures Logged(if fails then old(image) else old(image).(directories := {names}))
    {
      if !fails {
        image := image.(directories := {names});
      }
      images := images + [image];
    }
  }

  // ---- changes of a directory, each of which may or may not have reached the disk

  function Moved(d: Directory, name: Name, to: Name, i: Inode): Directory {
    (d - {name})[to := i]
  }

  ghost function Linked(ds: set<Directory>, name: Name, i: Inode): set<Directory> {
    ds + set d | d in ds :: d[name := i]
  }

  ghost function Relinked(ds: set<Directory>, name: Name, to: Name, i: Inode): set<Directory> {
    ds + set d | d in ds :: Moved(d, name, to, i)
  }

  ghost function Unlinked(ds: set<Directory>, name: Name): set<Directory> {
    ds + set d | d in ds :: d - {name}
  }

  // ---- Save

  /** Which steps of one Save fail, and what a failing write leaves. */
  datatype Faults = Faults(
    mkdir: bool, create: bool, chmod: bool, write: bool, partial: Bytes, sync: bool, close: bool,
    rename: bool, openDir: bool, syncDir: bool, remove: bool)

  /** So far nothing happened that concerns any name but the temporary one; its file is j. */
  ghost predicate Untouched(before: Image, img: Image, tmp: Name, j: Inode) {
    && (forall d: Directory | d in img.directories :: Avoids(d, tmp, j) && Resembles(before, d, tmp))
    && (forall i | i != j :: (i in img.stable <==> i in before.stable)
                             && (i in img.stable ==> img.stable[i] == before.stable[i]))
  }

  /** No other name stands for j. */
  predicate Avoids(d: Directory, tmp: Name, j: Inode) {
    forall n | n in d && n != tmp :: d[n] != j
  }

  /** But for the temporary name, a directory that could have been kept before. */
  ghost predicate Resembles(before: Image, d: Directory, tmp: Name) {
    exists d0: Directory | d0 in before.directories :: d0 - {tmp} == d - {tmp}
  }

  lemma SameLookup(d0: Directory, d: Directory, tmp: Name, n: Name)
    requires d0 - {tmp} == d - {tmp} && n != tmp
    ensures Lookup(d0, n) == Lookup(d, n)
  {
    assert n in d <==> n in d - {tmp};
    assert n in d0 <==> n in d0 - {tmp};
    if n in d {
      assert (d - {tmp})[n] == d[n] && (d0 - {tmp})[n] == d0[n];
    }
  }

  /** Under the target's name stands what could have been found before, or the new
      contents; under any other name but the temporary one, what could have been found. */
  ghost predicate OldOrNew(before: Image, img: Image, tmp: Name, target: Name, bytes: Bytes) {
    && (forall f | Survives(img, target, f) :: Survives(before, target, f) || f == Present(bytes))
    && forall n, f | n != tmp && n != target && Survives(img, n, f) :: Survives(before, n, f)
  }

  ghost predicate OnlyNew(img: Image, target: Name, bytes: Bytes) {
    forall f :: Survives(img, target, f) <==> f == Present(bytes)
  }

  lemma UntouchedSurvives(before: Image, img: Image, tmp: Name, j: Inode, n: Name, f: Found)
    requires Untouched(before, img, tmp, j) && n != tmp && Survives(img, n, f)
    ensures Survives(before, n, f)
  {
    var d: Directory :| d in img.directories && Shows(img.stable, Lookup(d, n), f);
    assert Avoids(d, tmp, j) && Resembles(before, d, tmp);
    var d0: Directory :| d0 in before.directories && d0 - {tmp} == d - {tmp};
    SameLookup(d0, d, tmp, n);
    assert Shows(before.stable, Lookup(d0, n), f);
  }

  lemma UntouchedIsOld(before: Image, img: Image, tmp: Name, target: Name, j: Inode, bytes: Bytes)
    requires Untouched(before, img, tmp, j) && tmp != target
    ensures OldOrNew(before, img, tmp, target, bytes)
  {
    hide Untouched, Survives;
    forall n, f | n != tmp && Survives(img, n, f) ensures Survives(before, n, f) {
      UntouchedSurvives(before, img, tmp, j, n, f);
    }
  }

  lemma RenamedSurvives(img: Image, tmp: Name, target: Name, j: Inode, n: Name, f: Found)
    requires n != tmp && Survives(img.(directories := Relinked(img.directories, tmp, target, j)), n, f)
    ensures Survives(img, n, f) || (n == target && Shows(img.stable, Some(j), f))
  {
    var ds := Relinked(img.directories, tmp, target, j);
    var d: Directory :| d in ds && Shows(img.stable, Lookup(d, n), f);
    if d !in img.directories {
      var d1: Directory :| d1 in img.directories && d == Moved(d1, tmp, target, j);
      assert n != target ==> Lookup(d, n) == Lookup(d1, n);
    }
  }

  /** The rename, or the lack of it, after the temporary file is stable. */
  lemma RenameIsAtomic(before: Image, img: Image, tmp: Name, target: Name, j: Inode, bytes: Bytes)
    requires Untouched(before, img, tmp, j) && j in img.stable && img.stable[j] == bytes && tmp != target
    ensures OldOrNew(before, img.(directories := Relinked(img.directories, tmp, target, j)), tmp, target, bytes)
  {
    hide Untouched, Survives;
    var img' := img.(directories := Relinked(img.directories, tmp, target, j));
    forall n, f | n != tmp && Survives(img', n, f)
      ensures Survives(before, n, f) || (n == target && f == Present(bytes)) {
      RenamedSurvives(img, tmp, target, j, n, f);
      if Survives(img, n, f) {
        UntouchedSurvives(before, img, tmp, j, n, f);
      }
    }
  }

  lemma UnlinkedSurvives(img: Image, tmp: Name, n: Name, f: Found)
    requires n != tmp && Survives(img.(directories := Unlinked(img.directories, tmp)), n, f)
    ensures Survives(img, n, f)
  {
    var d: Directory :| d in Unlinked(img.directories, tmp) && Shows(img.stable, Lookup(d, n), f);
    if d !in img.directories {
      var d1: Directory :| d1 in img.directories && d == d1 - {tmp};
      assert Lookup(d1, n) == Lookup(d, n);
      assert Shows(img.stable, Lookup(d1, n), f);
    }
  }

  /** Taking the temporary name away changes nothing for the others. */
  lemma UnlinkKeeps(before: Image, img: Image, tmp: Name, target: Name, bytes: Bytes)
    requires tmp != target && OldOrNew(before, img, tmp, target, bytes)
    ensures OldOrNew(before, img.(directories := Unlinked(img.directories, tmp)), tmp, target, bytes)
  {
    hide Survives;
    var img' := img.(directories := Unlinked(img.directories, tmp));
    forall n, f | n != tmp && Survives(img', n, f) ensures Survives(img, n, f) {
      UnlinkedSurvives(img, tmp, n, f);
    }
  }

  lemma LinkKeeps(before: Image, tmp: Name, j: Inode)
    requires forall d: Directory, n | d in before.directories && n in d :: d[n] != j
    ensures Untouched(before, before.(directories := Linked(before.directories, tmp, j)), tmp, j)
  {
    var ds := Linked(before.directories, tmp, j);
    forall d: Directory | d in ds ensures Avoids(d, tmp, j) && Resembles(before, d, tmp) {
      if d in before.directories {
        assert d - {tmp} == d - {tmp};
      } else {
        var d0: Directory :| d0 in before.directories && d == d0[tmp := j];
        assert d0 - {tmp} == d - {tmp};
      }
    }
  }

  /** Writing and syncing the temporary file changes nothing for the other names. */
  lemma FileKeeps(before: Image, img: Image, tmp: Name, j: Inode, stable: map<Inode, Bytes>)
    requires Untouched(before, img, tmp, j)
    requires forall i | i != j :: (i in stable <==> i in img.stable) && (i in stable ==> stable[i] == img.stable[i])
    ensures Untouched(before, img.(stable := stable), tmp, j)
  {
    hide Avoids, Resembles;
  }

  /** Every image a crash may have found since the call began. */
  ghost predicate AllOldOrNew(before: Image, images: seq<Image>, tmp: Name, target: Name, bytes: Bytes) {
    forall k | 0 <= k < |images| :: OldOrNew(before, images[k], tmp, target, bytes)
  }

  /** What holds after each step of a call that began with `before`. */
  ghost predicate Safe(disk: Disk, before: Image, tmp: Name, target: Name, bytes: Bytes)
    reads disk
  {
    && disk.Valid() && disk.images != []
    && AllOldOrNew(before, disk.images, tmp, target, bytes) && OldOrNew(before, disk.image, tmp, target, bytes)
  }

  /** From the created file to the stable one. */
  method WriteOut(disk: Disk, tmp: Name, target: Name, j: Inode, bytes: Bytes, faults: Faults, ghost before: Image)
    returns (ok: bool)
    requires Safe(disk, before, tmp, target, bytes) && tmp != target && j in disk.data
      && Untouched(before, disk.image, tmp, j)
    modifies disk
    ensures Safe(disk, before, tmp, target, bytes) && Untouched(before, disk.image, tmp, j)
    ensures disk.names == old(disk.names) && disk.data.Keys == old(disk.data).Keys
    ensures forall i | i in old(disk.data) && i != j :: disk.data[i] == old(disk.data)[i]
    ensures ok ==> disk.data[j] == bytes && j in disk.image.stable && disk.image.stable[j] == bytes
  {
    hide OldOrNew, Untouched;
    ok := false;
    if faults.chmod {
      return;
    }
    disk.Write(j, bytes, faults.write, faults.partial);
    FileKeeps(before, old(disk.image), tmp, j, disk.image.stable);
    UntouchedIsOld(before, disk.image, tmp, target, j, bytes);
    if faults.write {
      return;
    }
    label Written:
    disk.Sync(j, faults.sync);
    FileKeeps(before, old@Written(disk.image), tmp, j, disk.image.stable);
    UntouchedIsOld(before, disk.image, tmp, target, j, bytes);
    ok := !faults.sync && !faults.close;
  }

  /** The rename and the sync of the directory. */
  method Publish(disk: Disk, tmp: Name, target: Name, j: Inode, bytes: Bytes, faults: Faults, ghost before: Image)
    returns (ok: bool)
    requires Safe(disk, before, tmp, target, bytes) && Untouched(before, disk.image, tmp, j) && tmp != target
    requires tmp in disk.names && disk.names[tmp] == j && j in disk.image.stable && disk.image.stable[j] == bytes
    modifies disk
    ensures Safe(disk, before, tmp, target, bytes)
    ensures disk.names == if faults.rename then old(disk.names) else Moved(old(disk.names), tmp, target, j)
    ensures disk.data == old(disk.data)
    ensures ok ==> !faults.rename && disk.image.directories == {disk.names}
                   && j in disk.image.stable && disk.image.stable[j] == bytes
  {
    hide OldOrNew, Untouched;
    ok := false;
    RenameIsAtomic(before, disk.image, tmp, target, j, bytes);
    disk.Rename(tmp, target, faults.rename);
    if faults.rename || faults.openDir {
      return;
    }
    SyncedIsOldOrNew(before, disk.image, disk.names, tmp, target, bytes);
    disk.SyncDir(faults.syncDir);
    ok := !faults.syncDir;
  }

  lemma SyncedIsOldOrNew(before: Image, img: Image, names: Directory, tmp: Name, target: Name, bytes: Bytes)
    requires names in img.directories && OldOrNew(before, img, tmp, target, bytes)
    ensures OldOrNew(before, img.(directories := {names}), tmp, target, bytes)
  {
    var img' := img.(directories := {names});
    forall n, f | Survives(img', n, f) ensures Survives(img, n, f) {
      assert Shows(img.stable, Lookup(names, n), f);
    }
    hide Survives;
  }

  /** What running programs see of a call: the target is the file it was or the new
      one, and the contents of every other file are what they were. */
  ghost predicate Replaces(names: Directory, data: map<Inode, Bytes>, names': Directory, data': map<Inode, Bytes>,
                           target: Name, bytes: Bytes)
  {
    && (Lookup(names', target) == Lookup(names, target)
        || (target in names' && names'[target] in data' && data'[names'[target]] == bytes))
    && forall i | i in data :: i in data' && data'[i] == data[i]
  }

  /** Only the temporary file was written, and if it took the target's name it holds the bytes. */
  predicate Filled(names: Directory, data: map<Inode, Bytes>, names': Directory, data': map<Inode, Bytes>,
                   tmp: Name, target: Name, j: Inode, bytes: Bytes)
  {
    && data'.Keys == data.Keys && (forall i | i in data && i != j :: data'[i] == data[i])
    && (names' == names || (names' == Moved(names, tmp, target, j) && j in data' && data'[j] == bytes))
  }

  lemma FilledReplaces(names: Directory, data: map<Inode, Bytes>, names2: Directory, names3: Directory,
                       data': map<Inode, Bytes>, tmp: Name, target: Name, j: Inode, bytes: Bytes)
    requires j !in data && tmp !in names && tmp != target
    requires Filled(names[tmp := j], data[j := []], names2, data', tmp, target, j, bytes)
    requires names3 == names2 || names3 == names2 - {tmp}
    ensures Replaces(names, data, names3, data', target, bytes)
    ensures names2 == Moved(names[tmp := j], tmp, target, j) ==> names3 == names[target := j]
  {
    if names2 == Moved(names[tmp := j], tmp, target, j) {
      assert names2 == names[target := j];
      assert names2 - {tmp} == names2;
    }
  }

  /** Between the temporary file's creation and its removal. */
  method Fill(disk: Disk, tmp: Name, target: Name, j: Inode, bytes: Bytes, faults: Faults, ghost before: Image)
    returns (ok: bool)
    requires Safe(disk, before, tmp, target, bytes) && Untouched(before, disk.image, tmp, j) && tmp != target
    requires tmp in disk.names && disk.names[tmp] == j
    modifies disk
    ensures Safe(disk, before, tmp, target, bytes)
    ensures ok ==> disk.names == Moved(old(disk.names), tmp, target, j)
    ensures ok ==> OnlyNew(disk.image, target, bytes) && disk.image.directories == {disk.names}
    ensures Filled(old(disk.names), old(disk.data), disk.names, disk.data, tmp, target, j, bytes)
  {
    hide OldOrNew, Untouched, OnlyNew, AllOldOrNew;
    ok := WriteOut(disk, tmp, target, j, bytes, faults, before);
    if ok {
      ok := Publish(disk, tmp, target, j, bytes, faults, before);
      if ok {
        NewAlone(disk.image, disk.names, target, j, bytes);
      }
    }
  }

  /** The deferred remove: the name is gone once it was renamed. */
  method CleanUp(disk: Disk, tmp: Name, target: Name, bytes: Bytes, fails: bool, ghost before: Image)
    requires Safe(disk, before, tmp, target, bytes) && tmp != target
    modifies disk
    ensures Safe(disk, before, tmp, target, bytes) && disk.data == old(disk.data)
    ensures disk.names == old(disk.names) || disk.names == old(disk.names) - {tmp}
    ensures tmp !in old(disk.names) ==> disk.names == old(disk.names) && disk.image == old(disk.image)
  {
    hide OldOrNew;
    UnlinkKeeps(before, disk.image, tmp, target, bytes);
    if tmp in disk.names {
      disk.Remove(tmp, fails);
    }
  }

  /**
   Save. A crash after any step finds under the target's name what a crash before the
   call could have found, or the new bytes, never anything else; after a success it
   finds the new bytes. Running programs see the old file or the new one, and after a
   success no temporary file is left.
   */
  method Save(disk: Disk, target: Name, tmp: Name, bytes: Bytes, faults: Faults) returns (ok: bool)
    requires disk.Valid() && tmp !in disk.names && tmp != target
    modifies disk
    ensures Safe(disk, old(disk.image), tmp, target, bytes)
    ensures ok ==> OnlyNew(disk.image, target, bytes)
    ensures Replaces(old(disk.names), old(disk.data), disk.names, disk.data, target, bytes)
    ensures ok ==> target in disk.names && disk.names == old(disk.names)[target := disk.names[target]]
  {
    ghost var before := disk.image;
    assert Replaces(disk.names, disk.data, disk.names, disk.data, target, bytes);
    OldIsOld(before, tmp, target, bytes);
    disk.images := [before];
    hide OldOrNew, Untouched, OnlyNew, Replaces, Filled;
    ok := false;
    if faults.mkdir {
      return;
    }
    var created := CreateTemp(disk, tmp, target, bytes, faults.create);
    if created.None? {
      return;
    }
    var j := created.value;
    ok := Fill(disk, tmp, target, j, bytes, faults, before);
    ghost var filled := disk.names;
    CleanUp(disk, tmp, target, bytes, faults.remove, before);
    FilledReplaces(old(disk.names), old(disk.data), filled, disk.names, disk.data, tmp, target, j, bytes);
  }

  /** os.CreateTemp gives a name that is not taken. */
  method CreateTemp(disk: Disk, tmp: Name, target: Name, bytes: Bytes, fails: bool) returns (created: Option<Inode>)
    requires Safe(disk, disk.image, tmp, target, bytes) && tmp !in disk.names && tmp != target
    modifies disk
    ensures Safe(disk, old(disk.image), tmp, target, bytes)
    ensures created.None? ==> disk.names == old(disk.names) && disk.data == old(disk.data)
    ensures created.Some? ==>
              && created.value !in old(disk.data) && Untouched(old(disk.image), disk.image, tmp, created.value)
              && disk.names == old(disk.names)[tmp := created.value] && disk.data == old(disk.data)[created.value := []]
  {
    hide OldOrNew, Untouched;
    ghost var before := disk.image;
    created := disk.Create(tmp, fails);
    if created.Some? {
      LinkKeeps(before, tmp, created.value);
      UntouchedIsOld(before, disk.image, tmp, target, created.value, bytes);
    }
  }

  lemma OldIsOld(before: Image, tmp: Name, target: Name, bytes: Bytes)
    ensures OldOrNew(before, before, tmp, target, bytes)
  {
  }

  lemma NewAlone(img: Image, names: Directory, target: Name, j: Inode, bytes: Bytes)
    requires img.directories == {names} && Lookup(names, target) == Some(j)
    requires j in img.stable && img.stable[j] == bytes
    ensures OnlyNew(img, target, bytes)
  {
    assert Shows(img.stable, Lookup(names, target), Present(bytes));
  }

  // ---- Load

  datatype Loading<T> = Loaded(value: T) | Refused

  datatype LoadFaults = LoadFaults(read: bool, rename: bool, openDir: bool, syncDir: bool)

  /** json.Unmarshal, with the text null refused. */
  function Decode<T>(bytes: Bytes, unmarshal: Bytes -> Option<T>, isNull: Bytes -> bool): Option<T> {
    if isNull(bytes) then None else unmarshal(bytes)
  }

  /** Every directory a crash may keep still shows the file under one of the two names. */
  ghost predicate Kept(img: Image, target: Name, backup: Name, i: Inode) {
    forall d: Directory | d in img.directories :: Lookup(d, target) == Some(i) || Lookup(d, backup) == Some(i)
  }

  ghost predicate AllKept(images: seq<Image>, target: Name, backup: Name, i: Inode) {
    forall k | 0 <= k < |images| :: Kept(images[k], target, backup, i)
  }

  lemma RelinkKeeps(img: Image, target: Name, backup: Name, i: Inode)
    requires backup != target && Kept(img, target, backup, i)
    ensures Kept(img.(directories := Relinked(img.directories, target, backup, i)), target, backup, i)
  {
  }

  lemma SyncKeeps(img: Image, names: Directory, target: Name, backup: Name, i: Inode)
    requires names in img.directories && Kept(img, target, backup, i)
    ensures Kept(img.(directories := {names}), target, backup, i)
  {
  }

  /**
   Load. A file that is not there is an empty value, any other trouble with reading is
   an error, and a file that does not decode gives an empty value only once its bytes
   stand under the backup name for good. Whatever fails and wherever it crashes, the
   undecodable file is still there under one of the two names.
   */
  method Load<T>(
    disk: Disk, target: Name, backup: Name, unmarshal: Bytes -> Option<T>, isNull: Bytes -> bool, empty: T,
    faults: LoadFaults)
    returns (r: Loading<T>)
    requires disk.Valid() && backup != target
    modifies disk
    ensures disk.Valid() && disk.data == old(disk.data)
    ensures target !in old(disk.names) ==> r == Loaded(empty) && disk.names == old(disk.names)
    ensures target in old(disk.names) && faults.read ==> r == Refused && disk.names == old(disk.names)
    ensures target in old(disk.names) && !faults.read ==>
              var i := old(disk.names)[target];
              i in old(disk.data) &&
              var v := Decode(old(disk.data)[i], unmarshal, isNull);
              if v.Some? then r == Loaded(v.value) && disk.names == old(disk.names)
              else
                && (r.Loaded? ==> r == Loaded(empty) && disk.names == Moved(old(disk.names), target, backup, i)
                                  && disk.image.directories == {disk.names})
                && (old(Kept(disk.image, target, backup, i)) ==>
                      AllKept(disk.images, target, backup, i) && Kept(disk.image, target, backup, i))
  {
    disk.images := [disk.image];
    if target !in disk.names {
      return Loaded(empty);
    }
    if faults.read {
      return Refused;
    }
    var i := disk.names[target];
    assert disk.names in disk.image.directories;
    var v := Decode(disk.data[i], unmarshal, isNull);
    if v.Some? {
      return Loaded(v.value);
    }
    var moved := SetAside(disk, target, backup, i, faults);
    r := if moved then Loaded(empty) else Refused;
  }

  method SetAside(disk: Disk, target: Name, backup: Name, i: Inode, faults: LoadFaults) returns (ok: bool)
    requires disk.Valid() && backup != target && target in disk.names && disk.names[target] == i
    requires disk.images == [disk.image]
    modifies disk
    ensures disk.Valid() && disk.data == old(disk.data)
    ensures ok ==> disk.names == Moved(old(disk.names), target, backup, i) && disk.image.directories == {disk.names}
    ensures old(Kept(disk.image, target, backup, i)) ==>
              AllKept(disk.images, target, backup, i) && Kept(disk.image, target, backup, i)
  {
    ghost var before := disk.image;
    disk.Rename(target, backup, faults.rename);
    ghost var between := disk.image;
    if Kept(before, target, backup, i) {
      RelinkKeeps(before, target, backup, i);
      SyncKeeps(between, disk.names, target, backup, i);
    }
    if faults.rename || faults.openDir {
      return false;
    }
    disk.SyncDir(faults.syncDir);
    ok := !faults.syncDir;
  }

  // ---- across a crash

  /** A crash may keep this. */
  ghost predicate MayKeep(img: Image, names: Directory, data: map<Inode, Bytes>) {
    && names in img.directories && names.Values <= data.Keys
    && forall i | i in data && i in img.stable :: data[i] == img.stable[i]
  }

  function Find(names: Directory, data: map<Inode, Bytes>, name: Name): Found {
    if name in names && names[name] in data then Present(data[names[name]]) else Absent
  }

  /** After a restart everything on the disk is stable. */
  method Crash(disk: Disk, names: Directory, data: map<Inode, Bytes>)
    requires disk.Valid() && MayKeep(disk.image, names, data) && data.Keys <= disk.data.Keys
    modifies disk
    ensures disk.Valid() && disk.names == names && disk.data == data && disk.image == Image({names}, data)
  {
    disk.names, disk.data, disk.image := names, data, Image({names}, data);
  }

  lemma CrashFinds(img: Image, names: Directory, data: map<Inode, Bytes>, name: Name)
    requires MayKeep(img, names, data)
    ensures Survives(img, name, Find(names, data, name))
  {
    if name in names {
      assert names[name] in names.Values;
    }
    assert Shows(img.stable, Lookup(names, name), Find(names, data, name));
  }

  /** What was saved with success is decoded again after any crash. */
  lemma SavedIsLoaded<T>(
    img: Image, names: Directory, data: map<Inode, Bytes>, target: Name, value: T,
    marshal: T -> Bytes, unmarshal: Bytes -> Option<T>, isNull: Bytes -> bool)
    requires OnlyNew(img, target, marshal(value)) && MayKeep(img, names, data)
    requires unmarshal(marshal(value)) == Some(value) && !isNull(marshal(value))
    ensures target in names && names[target] in data
    ensures Decode(data[names[target]], unmarshal, isNull) == Some(value)
  {
    CrashFinds(img, names, data, target);
  }

  // ---- what the engine's model of the two files assumes

  /** f is one of the candidate snapshots; no file is the empty snapshot. */
  ghost predicate Encodes<R(!new)>(f: Found, candidates: set<R>, marshal: R -> Bytes, empty: R) {
    exists r | r in candidates :: f == Present(marshal(r)) || (f == Absent && r == empty)
  }

  ghost predicate Covers<R(!new)>(img: Image, target: Name, candidates: set<R>, marshal: R -> Bytes, empty: R) {
    forall f | Survives(img, target, f) :: Encodes(f, candidates, marshal, empty)
  }

  /** A save adds its snapshot to the candidates, at every step of it; one that
      succeeds leaves no other: exactly what System.Persist does to its set. */
  lemma SaveCovers<R(!new)>(
    before: Image, img: Image, tmp: Name, target: Name, value: R, candidates: set<R>, marshal: R -> Bytes, empty: R)
    requires Covers(before, target, candidates, marshal, empty)
    ensures OldOrNew(before, img, tmp, target, marshal(value)) ==>
      Covers(img, target, candidates + {value}, marshal, empty)
    ensures OnlyNew(img, target, marshal(value)) ==> Covers(img, target, {value}, marshal, empty)
  {
    if OldOrNew(before, img, tmp, target, marshal(value)) {
      forall f | Survives(img, target, f) ensures Encodes(f, candidates + {value}, marshal, empty) {
        if Survives(before, target, f) {
          var r :| r in candidates && (f == Present(marshal(r)) || (f == Absent && r == empty));
          assert r in candidates + {value};
        } else {
          assert value in candidates + {value};
        }
      }
    }
    if OnlyNew(img, target, marshal(value)) {
      forall f | Survives(img, target, f) ensures Encodes(f, {value}, marshal, empty) {
        assert value in {value};
      }
    }
  }

  /** A save of one file does nothing to the candidates of another in the same directory. */
  lemma OtherCovers<R(!new)>(
    before: Image, img: Image, tmp: Name, target: Name, bytes: Bytes, other: Name, candidates: set<R>,
    marshal: R -> Bytes, empty: R)
    requires OldOrNew(before, img, tmp, target, bytes) && other != tmp && other != target
    requires Covers(before, other, candidates, marshal, empty)
    ensures Covers(img, other, candidates, marshal, empty)
  {
    hide Survives, Encodes;
  }

  lemma MoreCovers<R(!new)>(img: Image, target: Name, few: set<R>, many: set<R>, marshal: R -> Bytes, empty: R)
    requires Covers(img, target, few, marshal, empty) && few <= many
    ensures Covers(img, target, many, marshal, empty)
  {
    hide Survives;
    forall f | Survives(img, target, f) ensures Encodes(f, many, marshal, empty) {
      var r :| r in few && (f == Present(marshal(r)) || (f == Absent && r == empty));
      assert r in many;
    }
  }

  /** One file of persistLocked: its name, what is to be saved, and what a crash could
      leave of it before. */
  datatype Part<!R> = Part(name: Name, tmp: Name, value: R, candidates: set<R>, marshal: R -> Bytes, empty: R)

  ghost predicate PartCovers<R(!new)>(img: Image, p: Part<R>, candidates: set<R>) {
    Covers(img, p.name, candidates, p.marshal, p.empty)
  }

  /** At this point of persistLocked a crash leaves of each file a candidate of before or
      the new value. */
  ghost predicate Between<R(!new), H(!new)>(img: Image, p: Part<R>, q: Part<H>) {
    PartCovers(img, p, p.candidates + {p.value}) && PartCovers(img, q, q.candidates + {q.value})
  }

  ghost predicate AllBetween<R(!new), H(!new)>(images: seq<Image>, p: Part<R>, q: Part<H>) {
    forall k | 0 <= k < |images| :: Between(images[k], p, q)
  }

  lemma FirstSave<R(!new), H(!new)>(before: Image, img: Image, p: Part<R>, q: Part<H>)
    requires OldOrNew(before, img, p.tmp, p.name, p.marshal(p.value)) && q.name != p.name && q.name != p.tmp
    requires PartCovers(before, p, p.candidates) && PartCovers(before, q, q.candidates)
    ensures Between(img, p, q) && PartCovers(img, q, q.candidates)
    ensures OnlyNew(img, p.name, p.marshal(p.value)) ==> PartCovers(img, p, {p.value})
  {
    hide OldOrNew, Survives, OnlyNew, Covers;
    SaveCovers(before, img, p.tmp, p.name, p.value, p.candidates, p.marshal, p.empty);
    OtherCovers(before, img, p.tmp, p.name, p.marshal(p.value), q.name, q.candidates, q.marshal, q.empty);
    MoreCovers(img, q.name, q.candidates, q.candidates + {q.value}, q.marshal, q.empty);
  }

  lemma SecondSave<R(!new), H(!new)>(before: Image, img: Image, p: Part<R>, q: Part<H>)
    requires OldOrNew(before, img, q.tmp, q.name, q.marshal(q.value)) && q.name != p.name && p.name != q.tmp
    requires PartCovers(before, p, {p.value}) && PartCovers(before, q, q.candidates)
    ensures Between(img, p, q) && PartCovers(img, p, {p.value}) && PartCovers(img, q, q.candidates + {q.value})
    ensures OnlyNew(img, q.name, q.marshal(q.value)) ==> PartCovers(img, q, {q.value})
  {
    hide OldOrNew, Survives, OnlyNew, Covers;
    SaveCovers(before, img, q.tmp, q.name, q.value, q.candidates, q.marshal, q.empty);
    OtherCovers(before, img, q.tmp, q.name, q.marshal(q.value), p.name, {p.value}, p.marshal, p.empty);
    MoreCovers(img, p.name, {p.value}, p.candidates + {p.value}, p.marshal, p.empty);
  }

  /**
   The two saves of persistLocked in one directory. At the end the candidates of both
   files are those of System.Persist, outcome by outcome, and at every step between a
   crash leaves of each file an old candidate or the new value.
   */
  method SaveBoth<R(!new), H(!new)>(disk: Disk, p: Part<R>, q: Part<H>, due: bool, first: Faults, second: Faults)
    returns (saved: bool, ok: bool, ghost during: seq<Image>)
    requires disk.Valid() && PartCovers(disk.image, p, p.candidates) && PartCovers(disk.image, q, q.candidates)
    requires p.name != q.name && p.tmp !in {p.name, q.name, q.tmp} && q.tmp !in {p.name, q.name}
    requires p.tmp !in disk.names && q.tmp !in disk.names
    modifies disk
    ensures disk.Valid() && AllBetween(during, p, q) && during != []
    ensures ok ==> saved
    ensures !saved ==> PartCovers(disk.image, p, p.candidates + {p.value}) && PartCovers(disk.image, q, q.candidates)
    ensures saved ==> PartCovers(disk.image, p, {p.value})
    ensures saved && !due ==> ok && PartCovers(disk.image, q, q.candidates)
    ensures saved && due && !ok ==> PartCovers(disk.image, q, q.candidates + {q.value})
    ensures saved && due && ok ==> PartCovers(disk.image, q, {q.value})
  {
    hide OldOrNew, OnlyNew, Between, PartCovers;
    ghost var before := disk.image;
    saved := Save(disk, p.name, p.tmp, p.marshal(p.value), first);
    during := disk.images;
    forall k | 0 <= k < |during| ensures Between(during[k], p, q) {
      FirstSave(before, during[k], p, q);
    }
    FirstSave(before, disk.image, p, q);
    BetweenCovers(disk.image, p, q);
    ok := saved;
    if !saved || !due {
      return;
    }
    ghost var between := disk.image;
    ok := Save(disk, q.name, q.tmp, q.marshal(q.value), second);
    ghost var later := disk.images;
    forall k | 0 <= k < |later| ensures Between(later[k], p, q) {
      SecondSave(between, later[k], p, q);
    }
    SecondSave(between, disk.image, p, q);
    during := during + later;
  }

  lemma BetweenCovers<R(!new), H(!new)>(img: Image, p: Part<R>, q: Part<H>)
    requires Between(img, p, q)
    ensures PartCovers(img, p, p.candidates + {p.value})
  {
  }
}
