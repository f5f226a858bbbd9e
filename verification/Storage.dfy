/**
 A firm's documents copied one way to its document storage, a batch at a time.

 Which sends go through is given: a document works when its file can be read and its copy is
 taken, a matter works when its folder is. Renaming a folder that is gone makes a new one.
 */
module Storage {
  import opened Wrappers

  const BATCH := 25

  datatype Document = Document(id: nat, matter: nat)

  /** What a link to a folder says: whose it is, and the name it was last saved under. */
  datatype FolderRef = FolderRef(matter: nat, name: string)

  datatype Run = Run(copied: nat, failed: bool)

  function Ids(documents: seq<Document>): set<nat> {
    set d | d in documents :: d.id
  }

  ghost predicate DistinctIds(documents: seq<Document>) {
    forall i, j :: 0 <= i < j < |documents| ==> documents[i].id != documents[j].id
  }

  /** The documents with no copy yet, oldest first. */
  function Uncopied(documents: seq<Document>, copied: set<nat>): seq<Document> {
    if documents == [] then []
    else if documents[0].id in copied then Uncopied(documents[1..], copied)
    else [documents[0]] + Uncopied(documents[1..], copied)
  }

  lemma {:induction false} UncopiedMeans(documents: seq<Document>, copied: set<nat>)
    ensures forall d :: d in Uncopied(documents, copied) <==> d in documents && d.id !in copied
    ensures DistinctIds(documents) ==> DistinctIds(Uncopied(documents, copied))
  {
    if documents != [] {
      var rest := Uncopied(documents[1..], copied);
      UncopiedMeans(documents[1..], copied);
      assert documents == [documents[0]] + documents[1..];
      if DistinctIds(documents) && documents[0].id !in copied { HeadIsDistinct(documents, rest); }
    }
  }

  lemma HeadIsDistinct(documents: seq<Document>, rest: seq<Document>)
    requires documents != [] && DistinctIds(documents) && DistinctIds(rest)
    requires forall d :: d in rest ==> d in documents[1..]
    ensures DistinctIds([documents[0]] + rest)
  {
    forall j | 0 <= j < |rest| ensures rest[j].id != documents[0].id { assert rest[j] in rest; }
  }

  function FirstOf(documents: seq<Document>, limit: nat): seq<Document> {
    if |documents| > limit then documents[..limit] else documents
  }

  /** How many documents before one of them have no copy yet. */
  function WaitingBefore(documents: seq<Document>, copied: set<nat>, i: nat): nat
    requires i <= |documents|
  {
    |set j | 0 <= j < i && documents[j].id !in copied|
  }

  lemma OneMoreWaits(documents: seq<Document>, copied: set<nat>, i: nat)
    requires i < |documents|
    ensures WaitingBefore(documents, copied, i + 1)
         == WaitingBefore(documents, copied, i) + if documents[i].id in copied then 0 else 1
  {
    var before := set j | 0 <= j < i && documents[j].id !in copied;
    var after := set j | 0 <= j < i + 1 && documents[j].id !in copied;
    assert after == before + if documents[i].id in copied then {} else {i};
  }

  /** The documents waiting for a copy, oldest first, up to a limit: each in its place, and no others. */
  ghost predicate OldestWaiting(found: seq<Document>, documents: seq<Document>, copied: set<nat>, limit: nat) {
    var all := WaitingBefore(documents, copied, |documents|);
    && |found| == (if all > limit then limit else all)
    && forall i :: 0 <= i < |documents| && documents[i].id !in copied ==>
         var place := WaitingBefore(documents, copied, i);
         place < limit ==> place < |found| && found[place] == documents[i]
  }

  lemma {:induction false} UncopiedUpTo(documents: seq<Document>, copied: set<nat>, i: nat)
    requires i <= |documents|
    ensures |Uncopied(documents[..i], copied)| == WaitingBefore(documents, copied, i)
    ensures Uncopied(documents, copied) == Uncopied(documents[..i], copied) + Uncopied(documents[i..], copied)
  {
    assert documents == documents[..i] + documents[i..];
    UncopiedConcat(documents[..i], documents[i..], copied);
    if i > 0 {
      UncopiedUpTo(documents, copied, i - 1);
      OneMoreWaits(documents, copied, i - 1);
      assert documents[..i] == documents[..i - 1] + [documents[i - 1]];
      UncopiedConcat(documents[..i - 1], [documents[i - 1]], copied);
      assert Uncopied([documents[i - 1]], copied) == if documents[i - 1].id in copied then [] else [documents[i - 1]];
    }
  }

  /** What is pending is the oldest of what waits. */
  lemma PendingIsOldest(documents: seq<Document>, copied: set<nat>, limit: nat)
    ensures OldestWaiting(FirstOf(Uncopied(documents, copied), limit), documents, copied, limit)
  {
    var n, all := |documents|, Uncopied(documents, copied);
    UncopiedUpTo(documents, copied, n);
    assert documents[..n] == documents;
    forall i | 0 <= i < n && documents[i].id !in copied
      ensures WaitingBefore(documents, copied, i) < |all|
      ensures all[WaitingBefore(documents, copied, i)] == documents[i]
    {
      UncopiedUpTo(documents, copied, i);
      assert Uncopied(documents[i..], copied)[0] == documents[i];
    }
  }

  /** How many of the first documents work, up to the first that does not. */
  function Working(documents: seq<Document>, works: Document -> bool): (n: nat)
    ensures n <= |documents|
    ensures forall i :: 0 <= i < n ==> works(documents[i])
    ensures n < |documents| ==> !works(documents[n])
  {
    if documents == [] || !works(documents[0]) then 0 else 1 + Working(documents[1..], works)
  }

  /** Of a batch, the documents up to the first that did not work have a copy now, and no others came. */
  ghost predicate Took(
    batch: seq<Document>, before: set<nat>, after: set<nat>, works: Document -> bool, run: Run)
  {
    && run.copied <= |batch| && (run.failed <==> run.copied < |batch|)
    && (forall n :: 0 <= n < run.copied ==> works(batch[n])) && (run.failed ==> !works(batch[run.copied]))
    && forall id :: id in after <==> id in before || exists n :: 0 <= n < run.copied && batch[n].id == id
  }

  lemma WorkingIs(documents: seq<Document>, works: Document -> bool, n: nat)
    requires n <= |documents| && (forall i :: 0 <= i < n ==> works(documents[i]))
    requires n < |documents| ==> !works(documents[n])
    ensures Working(documents, works) == n
  {}

  /** For each document of a batch, whether something holds of it. */
  function Each(batch: seq<Document>, holds: Document -> bool): (all: seq<bool>)
    ensures |all| == |batch| && forall i :: 0 <= i < |batch| ==> all[i] == holds(batch[i])
  {
    seq(|batch|, i requires 0 <= i < |batch| => holds(batch[i]))
  }

  lemma TakingIs(batch: seq<Document>, before: set<nat>, after: set<nat>, works: Document -> bool, run: Run)
    requires run.copied == Working(batch, works) && (run.failed <==> run.copied < |batch|)
    requires after == CopiedUpTo(before, batch, run.copied)
    ensures Took(batch, before, after, works, run)
  {
    CopiedIs(before, batch, run.copied);
    var part := batch[..run.copied];
    forall id ensures id in Ids(part) <==> exists n :: 0 <= n < run.copied && batch[n].id == id {
      if id in Ids(part) {
        var d :| d in part && d.id == id;
        var n :| 0 <= n < |part| && part[n] == d;
        assert batch[n].id == id;
      }
      if n :| 0 <= n < run.copied && batch[n].id == id { assert part[n] in part; }
    }
  }

  /** A run takes a batch of the oldest documents waiting, up to the first that does not work. */
  ghost predicate TookOldest(
    documents: seq<Document>, before: set<nat>, after: set<nat>, works: Document -> bool, run: Run)
  {
    exists batch: seq<Document> ::
      OldestWaiting(batch, documents, before, BATCH) && Took(batch, before, after, works, run)
  }

  lemma TakingOldest(
    documents: seq<Document>, before: set<nat>, after: set<nat>, works: Document -> bool, run: Run)
    requires var batch := FirstOf(Uncopied(documents, before), BATCH);
             && run.copied == Working(batch, works) && (run.failed <==> run.copied < |batch|)
             && after == CopiedUpTo(before, batch, run.copied)
    ensures TookOldest(documents, before, after, works, run)
  {
    PendingIsOldest(documents, before, BATCH);
    TakingIs(FirstOf(Uncopied(documents, before), BATCH), before, after, works, run);
  }

  lemma ValuesAfter(m: map<nat, nat>, k: nat, v: nat)
    requires k !in m
    ensures m[k := v].Values == m.Values + {v}
  {
    var n := m[k := v];
    forall x | x in m.Values + {v} ensures x in n.Values {
      if x in m.Values {
        var y :| y in m && m[y] == x;
        assert n[y] == x;
      } else {
        assert n[k] == x;
      }
    }
  }

  /** At most one folder is linked to a matter. */
  ghost predicate OneFolderEach(folders: map<nat, FolderRef>) {
    forall a, b :: a in folders && b in folders && folders[a].matter == folders[b].matter ==> a == b
  }

  /** At most one item is linked to a document. */
  ghost predicate OneCopyEach(copies: map<nat, nat>) {
    forall a, b :: a in copies && b in copies && copies[a] == copies[b] ==> a == b
  }

  /** Whatever can happen to a firm's matters and documents, on either side. */
  datatype Happening =
    | NewMatter(matter: nat, name: string)
    | NewDocument(document: Document)
    | Renamed(matter: nat, name: string)
    | FolderGone(folder: nat)
    | RenameTask(matter: nat, accepted: bool)
    | CopyTask(document: Document, taken: bool, folderSaved: bool)
    | CopyRun(works: Document -> bool, folderTaken: Document -> bool)

  class Connection {
    // Every document, oldest first, and what each matter's folder should be called.
    var documents: seq<Document>
    var names: map<nat, string>
    // Links by the provider's ID: which document a file is a copy of, which matter a folder is of.
    var copies: map<nat, nat>
    var folders: map<nat, FolderRef>
    // The folders at the provider with their names, and the next ID it gives out.
    var shelf: map<nat, string>
    var nextItem: nat
    // The documents saved at the provider, one entry a save, and the matters renamed since their
    // folder was last saved.
    ghost var saved: seq<nat>
    ghost var stale: set<nat>

    ghost predicate Valid()
      reads this
    {
      && DistinctIds(documents)
      && (forall d :: d in documents ==> d.matter in names)
      && CopiesAgree()
      && FoldersAgree()
    }

    ghost predicate CopiesAgree()
      reads this
    {
      && OneCopyEach(copies)
      && (forall i, j :: 0 <= i < j < |saved| ==> saved[i] != saved[j])
      && (forall id :: id in saved <==> id in copies.Values)
      && (forall id :: id in saved ==> id in Ids(documents))
      && (forall f :: f in copies ==> f < nextItem)
    }

    ghost predicate FoldersAgree()
      reads this
    {
      && OneFolderEach(folders)
      && (forall f :: f in folders ==> f < nextItem && folders[f].matter in names)
      && (forall f :: f in folders && f in shelf ==> shelf[f] == folders[f].name)
      && (forall f :: f in folders && folders[f].matter !in stale ==> folders[f].name == names[folders[f].matter])
      && (forall f :: f in shelf ==> f < nextItem)
    }

    constructor ()
      ensures Valid() && documents == [] && names == map[] && copies == map[] && folders == map[] && saved == []
    {
      documents, names, copies, folders, shelf, nextItem := [], map[], map[], map[], map[], 0;
      saved, stale := [], {};
    }

    /** The link to a matter's folder, if there is one. */
    method FolderOf(matter: nat) returns (ref: Option<nat>)
      requires Valid()
      ensures forall f :: f in folders && folders[f].matter == matter <==> ref == Some(f)
    {
      if exists f | f in folders :: folders[f].matter == matter {
        var f :| f in folders && folders[f].matter == matter;
        return Some(f);
      }
      ref := None;
    }

    /** The matter's folder is linked under the name it should have. */
    ghost predicate HasCurrentFolder(matter: nat)
      requires matter in names
      reads this
    {
      exists f :: f in folders && folders[f] == FolderRef(matter, names[matter])
    }

    /** The matter's folder, made or renamed to match; one link a matter, whatever happens. */
    method MatterFolder(matter: nat, accepted: bool) returns (r: Option<nat>)
      requires Valid() && matter in names
      modifies this`folders, this`nextItem, this`shelf, this`stale
      ensures Valid() && nextItem >= old(nextItem)
      ensures r.None? <==> !accepted && !old(HasCurrentFolder(matter))
      ensures r.Some? ==>
                && r.value in folders && folders[r.value] == FolderRef(matter, names[matter])
                && stale == old(stale) - {matter}
      ensures r.None? ==> folders == old(folders) && shelf == old(shelf) && stale == old(stale)
      // Under its current name it is left alone; otherwise it is saved under that name.
      ensures old(HasCurrentFolder(matter)) ==>
                folders == old(folders) && shelf == old(shelf) && nextItem == old(nextItem)
      ensures r.Some? && !old(HasCurrentFolder(matter)) ==> shelf == old(shelf)[r.value := names[matter]]
      // A folder still there is kept, under its ID; other matters' folders are not touched.
      ensures r.Some? ==>
                forall f :: f in old(folders) && f in old(shelf) && old(folders)[f].matter == matter ==> f == r.value
      ensures forall f :: f in old(folders) && old(folders)[f].matter != matter ==>
                f in folders && folders[f] == old(folders)[f] && (f in shelf <==> f in old(shelf))
      ensures forall f :: f in folders && folders[f].matter != matter ==> f in old(folders)
    {
      var name := names[matter];
      var ref := FolderOf(matter);
      if ref.Some? && folders[ref.value].name == name {
        stale := stale - {matter};
        return ref;
      }
      if !accepted {
        return None;
      }
      var id := SaveFolder(matter, ref);
      r := Some(id);
    }

    /** The provider saves the folder, under its ID if it is still there, and the link follows that ID. */
    method SaveFolder(matter: nat, ref: Option<nat>) returns (id: nat)
      requires FoldersAgree() && matter in names
      requires forall f :: f in folders && folders[f].matter == matter <==> ref == Some(f)
      modifies this`folders, this`nextItem, this`shelf, this`stale
      ensures FoldersAgree() && nextItem >= old(nextItem) && stale == old(stale) - {matter}
      ensures ref.Some? && ref.value in old(shelf) ==> id == ref.value
      ensures ref.None? || ref.value !in old(shelf) ==> id == old(nextItem)
      ensures folders
           == (if ref.Some? then old(folders) - {ref.value} else old(folders))[id := FolderRef(matter, names[matter])]
      ensures shelf == old(shelf)[id := names[matter]]
    {
      id := nextItem;
      if ref.Some? && ref.value in shelf {
        id := ref.value;
      } else {
        nextItem := nextItem + 1;
      }
      shelf := shelf[id := names[matter]];
      if ref.Some? && ref.value != id {
        folders := folders - {ref.value};
      }
      folders := folders[id := FolderRef(matter, names[matter])];
      stale := stale - {matter};
    }

    /** Copy one document, unless it has a copy; failing, at its folder or after, leaves it for a later run. */
    method Copy(document: Document, works: bool, folderTaken: bool) returns (copied: bool, failed: bool)
      requires Valid() && document in documents
      modifies this`copies, this`saved, this`folders, this`nextItem, this`shelf, this`stale
      ensures Valid()
      ensures old(document.id in copies.Values) ==> !copied && !failed && copies == old(copies) && saved == old(saved)
      ensures !old(document.id in copies.Values) ==> copied == works && failed == !works
      ensures copied ==>
                && copies.Values == old(copies).Values + {document.id} && saved == old(saved) + [document.id]
                && HasCurrentFolder(document.matter)
      ensures !copied ==> copies == old(copies) && saved == old(saved)
    {
      copied, failed := false, false;
      if document.id in copies.Values {
        return;
      }
      var folder := MatterFolder(document.matter, works || folderTaken);
      if folder.None? || !works {
        failed := true;
        return;
      }
      AddCopy(document);
      copied := true;
    }

    /** The provider takes a document's file, and its copy is linked. */
    method AddCopy(document: Document)
      requires Valid() && document in documents && document.id !in copies.Values
      modifies this`copies, this`saved, this`nextItem
      ensures Valid()
      ensures copies.Values == old(copies).Values + {document.id} && saved == old(saved) + [document.id]
    {
      ValuesAfter(copies, nextItem, document.id);
      saved := saved + [document.id];
      copies := copies[nextItem := document.id];
      nextItem := nextItem + 1;
    }

    /** Documents with no copy here yet, oldest first, up to a limit. */
    method Pending(limit: nat) returns (found: seq<Document>)
      requires limit > 0
      ensures found == FirstOf(Uncopied(documents, copies.Values), limit)
      ensures OldestWaiting(found, documents, copies.Values, limit)
    {
      var all, copied := documents, copies.Values;
      found := [];
      assert all[0..] == all;
      for n := 0 to |all|
        invariant |found| < limit
        invariant FoundSoFar(all, copied, found, n)
      {
        FoundThisFar(all, copied, found, n);
        if all[n].id !in copied {
          found := found + [all[n]];
          if |found| == limit {
            PendingIsOldest(all, copied, limit);
            return;
          }
        }
      }
      PendingIsOldest(all, copied, limit);
    }

    /** The documents of a batch in turn, up to the first that fails. */
    method CopyAll(batch: seq<Document>, work: seq<bool>, foldersTaken: seq<bool>) returns (run: Run)
      requires Valid() && AllNew(batch, documents, copies.Values) && |work| == |foldersTaken| == |batch|
      modifies this`copies, this`saved, this`folders, this`nextItem, this`shelf, this`stale
      ensures Valid()
      ensures run.copied <= |batch| && (run.failed <==> run.copied < |batch|)
      ensures (forall i :: 0 <= i < run.copied ==> work[i]) && (run.failed ==> !work[run.copied])
      ensures copies.Values == CopiedUpTo(old(copies).Values, batch, run.copied)
    {
      ghost var before, taken := copies.Values, copies.Values;
      run := Run(0, false);
      for n := 0 to |batch|
        invariant Valid() && run == Run(n, false) && copies.Values == taken
        invariant taken == CopiedUpTo(before, batch, n)
        invariant forall i :: 0 <= i < n ==> work[i]
      {
        NextIsNew(batch, documents, before, n);
        var copied, failed := Copy(batch[n], work[n], foldersTaken[n]);
        if failed {
          run := run.(failed := true);
          return;
        }
        taken := taken + {batch[n].id};
        run := run.(copied := run.copied + 1);
      }
    }

    /** One scheduled run: the oldest pending documents, up to the first that fails. */
    method CopyPending(works: Document -> bool, folderTaken: Document -> bool) returns (run: Run)
      requires Valid()
      modifies this`copies, this`saved, this`folders, this`nextItem, this`shelf, this`stale
      ensures Valid()
      ensures var batch := FirstOf(Uncopied(documents, old(copies).Values), BATCH);
              && run.copied == Working(batch, works)
              && copies.Values == CopiedUpTo(old(copies).Values, batch, run.copied)
              && (run.failed <==> run.copied < |batch|)
      ensures TookOldest(documents, old(copies).Values, copies.Values, works, run)
      ensures (forall d :: d in documents ==> works(d)) ==>
                !run.failed && copies.Values == AfterRun(documents, old(copies).Values)
    {
      ghost var before := copies.Values;
      var batch := Pending(BATCH);
      BatchIsNew(documents, before, batch);
      run := CopyAll(batch, Each(batch, works), Each(batch, folderTaken));
      WorkingIs(batch, works, run.copied);
      TakingOldest(documents, before, copies.Values, works, run);
      if forall d :: d in documents ==> works(d) { WholeRun(documents, before, batch, works); }
    }

    // ---- What staff and the provider's users do ----

    method AddMatter(matter: nat, name: string)
      requires Valid() && matter !in names
      modifies this`names
      ensures Valid() && names == old(names)[matter := name]
    {
      names := names[matter := name];
    }

    method AddDocument(document: Document)
      requires Valid() && document.id !in Ids(documents) && document.matter in names
      modifies this`documents
      ensures Valid() && documents == old(documents) + [document]
    {
      NewIdIsDistinct(documents, document);
      documents := documents + [document];
    }

    /** A matter's number or title changes, and with it what its folder should be called. */
    method Rename(matter: nat, name: string) returns (queued: bool)
      requires Valid() && matter in names
      modifies this`names, this`stale
      ensures Valid() && names == old(names)[matter := name] && stale == old(stale) + {matter}
      ensures queued <==> exists f :: f in folders && folders[f].matter == matter && folders[f].name != name
    {
      var ref := FolderOf(matter);
      queued := ref.Some? && folders[ref.value].name != name;
      names := names[matter := name];
      stale := stale + {matter};
    }

    /** The queued task: the folder takes the matter's name, if there is one; failing leaves it for later. */
    method RenameFolder(matter: nat, accepted: bool)
      requires Valid() && matter in names
      modifies this`folders, this`nextItem, this`shelf, this`stale
      ensures Valid()
      ensures (exists f :: f in old(folders) && old(folders)[f].matter == matter) && accepted ==>
                HasCurrentFolder(matter)
      ensures !(exists f :: f in old(folders) && old(folders)[f].matter == matter) || !accepted ==>
                folders == old(folders) && shelf == old(shelf)
    {
      var ref := FolderOf(matter);
      if ref.Some? {
        var _ := MatterFolder(matter, accepted);
      }
    }

    method LoseFolder(folder: nat)
      requires Valid()
      modifies this`shelf
      ensures Valid() && shelf == old(shelf) - {folder}
    {
      shelf := shelf - {folder};
    }

    /**
     Over any run, what cannot happen at a moment being skipped: a document is saved once at most and
     has one copy at most, a matter has one folder at most, and a folder's link and the folder itself
     carry the matter's name as it is, unless the matter was renamed and no save has gone through since.
     */
    method Live(run: seq<Happening>)
      requires Valid()
      modifies this
      ensures Valid()
      ensures (forall i, j :: 0 <= i < j < |saved| ==> saved[i] != saved[j]) && OneCopyEach(copies)
      ensures OneFolderEach(folders)
      ensures forall f :: f in folders && folders[f].matter !in stale ==>
                && folders[f].matter in names && folders[f].name == names[folders[f].matter]
                && (f in shelf ==> shelf[f] == names[folders[f].matter])
    {
      for n := 0 to |run|
        invariant Valid()
      {
        match run[n]
        case NewMatter(matter, name) => if matter !in names { AddMatter(matter, name); }
        case NewDocument(document) =>
          if document.id !in Ids(documents) && document.matter in names { AddDocument(document); }
        case Renamed(matter, name) => if matter in names { var _ := Rename(matter, name); }
        case FolderGone(folder) => LoseFolder(folder);
        case RenameTask(matter, accepted) => if matter in names { RenameFolder(matter, accepted); }
        case CopyTask(document, taken, folderSaved) =>
          if document in documents { var _, _ := Copy(document, taken, folderSaved); }
        case CopyRun(works, folderTaken) => var _ := CopyPending(works, folderTaken);
      }
    }
  }

  lemma NewIdIsDistinct(documents: seq<Document>, document: Document)
    requires DistinctIds(documents) && document.id !in Ids(documents)
    ensures DistinctIds(documents + [document])
    ensures forall id :: id in Ids(documents) ==> id in Ids(documents + [document])
  {
    forall i | 0 <= i < |documents| ensures documents[i].id != document.id { assert documents[i] in documents; }
    forall id | id in Ids(documents) ensures id in Ids(documents + [document]) {
      var d :| d in documents && d.id == id;
      assert d in documents + [document];
    }
  }

  /** When every document works, a run copies its whole batch. */
  lemma WholeRun(documents: seq<Document>, copied: set<nat>, batch: seq<Document>, works: Document -> bool)
    requires forall d :: d in documents ==> works(d)
    requires batch == FirstOf(Uncopied(documents, copied), BATCH)
    ensures Working(batch, works) == |batch| && CopiedUpTo(copied, batch, |batch|) == AfterRun(documents, copied)
  {
    UncopiedMeans(documents, copied);
    forall d | d in batch ensures works(d) { assert d in Uncopied(documents, copied); }
    AllWork(batch, works);
    CopiedIs(copied, batch, |batch|);
    assert batch[..|batch|] == batch;
  }

  lemma {:induction false} AllWork(batch: seq<Document>, works: Document -> bool)
    requires forall d :: d in batch ==> works(d)
    ensures Working(batch, works) == |batch|
  {
    if batch != [] {
      assert batch[0] in batch && forall d :: d in batch[1..] ==> d in batch;
      AllWork(batch[1..], works);
    }
  }

  /** Each document of a batch is one of the firm's, and has no copy. */
  ghost predicate AllNew(batch: seq<Document>, documents: seq<Document>, copied: set<nat>) {
    DistinctIds(batch) && forall d :: d in batch ==> d in documents && d.id !in copied
  }

  lemma NextIsNew(batch: seq<Document>, documents: seq<Document>, copied: set<nat>, n: nat)
    requires AllNew(batch, documents, copied) && n < |batch|
    ensures batch[n] in documents && batch[n].id !in CopiedUpTo(copied, batch, n)
  {
    assert batch[n] in batch;
    NotYet(batch, n, copied);
  }

  lemma BatchIsNew(documents: seq<Document>, copied: set<nat>, batch: seq<Document>)
    requires DistinctIds(documents) && batch == FirstOf(Uncopied(documents, copied), BATCH)
    ensures AllNew(batch, documents, copied)
  {
    UncopiedMeans(documents, copied);
    forall d | d in batch ensures d in documents && d.id !in copied { assert d in Uncopied(documents, copied); }
  }

  /** Part way through the documents: what was found, then what is still uncopied among the rest. */
  ghost predicate FoundSoFar(documents: seq<Document>, copied: set<nat>, found: seq<Document>, n: nat)
    requires n <= |documents|
  {
    Uncopied(documents, copied) == found + Uncopied(documents[n..], copied)
  }

  lemma FoundThisFar(documents: seq<Document>, copied: set<nat>, found: seq<Document>, n: nat)
    requires n < |documents| && FoundSoFar(documents, copied, found, n)
    ensures var next := if documents[n].id in copied then found else found + [documents[n]];
            FoundSoFar(documents, copied, next, n + 1) && Uncopied(documents, copied)[..|next|] == next
  {
    UncopiedFrom(documents, copied, n);
    OneMoreFound(found, documents[n], Uncopied(documents[n + 1..], copied));
  }

  lemma UncopiedFrom(documents: seq<Document>, copied: set<nat>, n: nat)
    requires n < |documents|
    ensures Uncopied(documents[n..], copied)
         == (if documents[n].id in copied then [] else [documents[n]]) + Uncopied(documents[n + 1..], copied)
  {
    assert documents[n..][1..] == documents[n + 1..];
  }

  lemma OneMoreFound(found: seq<Document>, d: Document, rest: seq<Document>)
    ensures found + ([d] + rest) == found + [d] + rest
    ensures (found + [d] + rest)[..|found| + 1] == found + [d]
  {}

  function CopiedUpTo(copied: set<nat>, batch: seq<Document>, n: nat): set<nat>
    requires n <= |batch|
  {
    if n == 0 then copied else CopiedUpTo(copied, batch, n - 1) + {batch[n - 1].id}
  }

  lemma {:induction false} CopiedIs(copied: set<nat>, batch: seq<Document>, n: nat)
    requires n <= |batch|
    ensures CopiedUpTo(copied, batch, n) == copied + Ids(batch[..n])
  {
    if n == 0 {
      assert Ids(batch[..0]) == {};
    } else {
      CopiedIs(copied, batch, n - 1);
      assert batch[..n] == batch[..n - 1] + [batch[n - 1]];
      assert Ids(batch[..n]) == Ids(batch[..n - 1]) + {batch[n - 1].id};
    }
  }

  lemma NotYet(batch: seq<Document>, n: nat, copied: set<nat>)
    requires n < |batch| && DistinctIds(batch) && batch[n].id !in copied
    ensures batch[n].id !in CopiedUpTo(copied, batch, n)
  {
    CopiedIs(copied, batch, n);
    forall d | d in batch[..n] ensures d.id != batch[n].id {
      var i :| 0 <= i < n && batch[..n][i] == d;
    }
  }

  // ---- Runs until nothing is pending ----

  /** What has a copy after one run in which everything works. */
  function AfterRun(documents: seq<Document>, copied: set<nat>): set<nat> {
    copied + Ids(FirstOf(Uncopied(documents, copied), BATCH))
  }

  function AfterRuns(documents: seq<Document>, copied: set<nat>, runs: nat): set<nat>
    decreases runs
  {
    if runs == 0 then copied else AfterRuns(documents, AfterRun(documents, copied), runs - 1)
  }

  /** What is pending after more copies is what was pending, less those copied. */
  lemma {:induction false} PendingShrinks(documents: seq<Document>, copied: set<nat>, more: set<nat>)
    ensures Uncopied(documents, copied + more) == Uncopied(Uncopied(documents, copied), more)
  {
    if documents != [] {
      PendingShrinks(documents[1..], copied, more);
      var rest := Uncopied(documents[1..], copied);
      if documents[0].id !in copied {
        assert ([documents[0]] + rest)[1..] == rest;
      }
    }
  }

  lemma {:induction false} AllTaken(part: seq<Document>, whole: seq<Document>)
    requires forall d :: d in part ==> d in whole
    ensures Uncopied(part, Ids(whole)) == []
  {
    if part != [] {
      assert part[0] in part;
      assert forall d :: d in part[1..] ==> d in part;
      AllTaken(part[1..], whole);
    }
  }

  lemma {:induction false} NoneTaken(part: seq<Document>, taken: set<nat>)
    requires forall d :: d in part ==> d.id !in taken
    ensures Uncopied(part, taken) == part
  {
    if part != [] {
      assert part[0] in part;
      assert forall d :: d in part[1..] ==> d in part;
      NoneTaken(part[1..], taken);
    }
  }

  lemma {:induction false} UncopiedConcat(a: seq<Document>, b: seq<Document>, taken: set<nat>)
    ensures Uncopied(a + b, taken) == Uncopied(a, taken) + Uncopied(b, taken)
  {
    if a == [] {
      assert a + b == b;
    } else {
      assert (a + b)[1..] == a[1..] + b;
      UncopiedConcat(a[1..], b, taken);
    }
  }

  lemma LaterIdsDiffer(first: seq<Document>, later: seq<Document>)
    requires DistinctIds(first + later)
    ensures forall d :: d in later ==> d.id !in Ids(first)
  {
    forall d, e | d in later && e in first ensures d.id != e.id {
      var i :| 0 <= i < |later| && later[i] == d;
      var j :| 0 <= j < |first| && first[j] == e;
      assert (first + later)[j] == e && (first + later)[|first| + i] == d;
    }
  }

  lemma OnlyFirstTaken(first: seq<Document>, later: seq<Document>)
    requires DistinctIds(first + later)
    ensures Uncopied(first + later, Ids(first)) == later
  {
    UncopiedConcat(first, later, Ids(first));
    AllTaken(first, first);
    LaterIdsDiffer(first, later);
    NoneTaken(later, Ids(first));
  }

  /** A fully successful run takes the oldest batch off what is pending, and nothing else. */
  lemma RunTakesOneBatch(documents: seq<Document>, copied: set<nat>)
    requires DistinctIds(documents)
    ensures var left := Uncopied(documents, copied);
            Uncopied(documents, AfterRun(documents, copied)) == if |left| > BATCH then left[BATCH..] else []
  {
    var left := Uncopied(documents, copied);
    var n := if |left| > BATCH then BATCH else |left|;
    assert FirstOf(left, BATCH) == left[..n];
    UncopiedMeans(documents, copied);
    PendingShrinks(documents, copied, Ids(left[..n]));
    assert left == left[..n] + left[n..];
    OnlyFirstTaken(left[..n], left[n..]);
  }

  /** Exactly so many fully successful runs empty the queue: one for each batch, the last one begun. */
  lemma {:induction false} RunsUntilEmpty(documents: seq<Document>, copied: set<nat>, runs: nat)
    requires DistinctIds(documents)
    ensures Uncopied(documents, AfterRuns(documents, copied, runs)) == []
       <==> runs >= (|Uncopied(documents, copied)| + BATCH - 1) / BATCH
    decreases runs
  {
    if runs > 0 {
      RunTakesOneBatch(documents, copied);
      RunsUntilEmpty(documents, AfterRun(documents, copied), runs - 1);
    }
  }
}
