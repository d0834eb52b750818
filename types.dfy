/** Values shared by the crawler variants: the records pushed to the
    per-task result list, frontier entries and the batch size. */
module Types {

  datatype Option<+T> = None | Some(value: T)

  /** A record's status is an HTTP status code or the string "error". */
  datatype Status = Code(code: int) | Error

  datatype LinkType = Internal | External

  /** One element of the per-task result list: url, status, type, parent and
      details. The GET-only crawler writes no details field (None). */
  datatype Record = Record(url: string, status: Status, kind: LinkType,
                           parent: Option<string>, details: Option<string>)

  /** A frontier entry: a normalised URL and the page it was found on. */
  datatype Entry = Entry(url: string, parent: Option<string>)

  /** Both crawlers take at most this many frontier entries per batch. */
  const BatchSize: nat := 10

  /** Length of the slice `to_visit[:10]`. */
  function BatchLength(n: nat): (k: nat)
    ensures k <= n && k <= BatchSize
    ensures 0 < n ==> 0 < k
    ensures k < BatchSize ==> k == n
  {
    if n < BatchSize then n else BatchSize
  }

  /** The URLs named by a list of frontier entries. */
  function Urls(entries: seq<Entry>): (s: set<string>)
    ensures forall i :: 0 <= i < |entries| ==> entries[i].url in s
    ensures forall u :: u in s ==> exists i :: 0 <= i < |entries| && entries[i].url == u
  {
    set i | 0 <= i < |entries| :: entries[i].url
  }

  /** Appending an entry adds its URL. */
  lemma UrlsAppend(entries: seq<Entry>, e: Entry)
    ensures Urls(entries + [e]) == Urls(entries) + {e.url}
  {
    UrlsSnoc(entries + [e]);
    assert (entries + [e])[..|entries|] == entries;
  }

  /** The URLs of a list are those of all but its last entry, and the last one's. */
  lemma UrlsSnoc(entries: seq<Entry>)
    requires entries != []
    ensures Urls(entries) == Urls(entries[..|entries| - 1]) + {entries[|entries| - 1].url}
  {
    var init := entries[..|entries| - 1];
    forall u | u in Urls(entries) ensures u in Urls(init) + {entries[|entries| - 1].url} {
      var i :| 0 <= i < |entries| && entries[i].url == u;
      if i < |entries| - 1 { assert init[i] == entries[i]; }
    }
    forall u | u in Urls(init) ensures u in Urls(entries) {
      var i :| 0 <= i < |init| && init[i].url == u;
      assert entries[i] == init[i];
    }
  }

  /** The entries of a batch that get past the visited check of
      `fetch_and_process_url`. Under `asyncio.gather` every entry of the batch
      runs its check and its mark before any of them reaches an `await`, so an
      entry goes on exactly when its URL was neither visited before the batch
      nor marked by an earlier entry of the same batch. */
  function Claimed(visited: set<string>, batch: seq<Entry>): (c: seq<Entry>)
    ensures Urls(c) == Urls(batch) - visited
    ensures forall i :: 0 <= i < |c| ==> c[i] in batch
    ensures forall i, j :: 0 <= i < j < |c| ==> c[i].url != c[j].url
    decreases |batch|
  {
    if batch == [] then []
    else
      var init := batch[..|batch| - 1];
      var last := batch[|batch| - 1];
      var c := Claimed(visited, init);
      UrlsSnoc(batch);
      assert forall i :: 0 <= i < |init| ==> init[i] == batch[i];
      if last.url in visited + Urls(init) then c
      else
        UrlsAppend(c, last);
        c + [last]
  }

  lemma {:induction false} FirstEntryIsClaimed(visited: set<string>, batch: seq<Entry>, i: nat)
    requires i < |batch| && batch[i].url !in visited
    requires forall j :: 0 <= j < i ==> batch[j].url != batch[i].url
    ensures batch[i] in Claimed(visited, batch)
    decreases |batch|
  {
    var init := batch[..|batch| - 1];
    if i == |batch| - 1 {
      assert forall j :: 0 <= j < |init| ==> init[j] == batch[j];
      assert Claimed(visited, batch) == Claimed(visited, init) + [batch[i]];
    } else {
      assert init[i] == batch[i];
      FirstEntryIsClaimed(visited, init, i);
    }
  }

  /** After the checks of the first `i` entries of a batch: `marked` is what
      is visited, and `running` are the entries that went on. */
  ghost predicate ClaimedUpTo(visited: set<string>, batch: seq<Entry>, i: nat, marked: set<string>, running: seq<Entry>)
  {
    i <= |batch| && marked == visited + Urls(batch[..i]) && running == Claimed(visited, batch[..i])
  }

  /** One more entry of a batch goes through the visited check. */
  lemma ClaimStep(visited: set<string>, batch: seq<Entry>, i: nat, marked: set<string>, running: seq<Entry>)
    requires i < |batch| && ClaimedUpTo(visited, batch, i, marked, running)
    ensures ClaimedUpTo(visited, batch, i + 1, marked + {batch[i].url},
                        if batch[i].url in marked then running else running + [batch[i]])
  {
    assert batch[..i + 1][..i] == batch[..i];
    UrlsSnoc(batch[..i + 1]);
  }

  /** Two entries with different URLs, neither visited, both pass the check. */
  lemma ClaimedPair(visited: set<string>, a: Entry, b: Entry)
    requires a.url != b.url && a.url !in visited && b.url !in visited
    ensures Claimed(visited, [a, b]) == [a, b] && Urls([a, b]) == {a.url, b.url}
  {
    var ab := [a, b];
    assert ab[..1] == [a] && [a][..0] == [];
    UrlsSnoc([a]);
    UrlsSnoc(ab);
    assert Urls([a]) == {a.url};
    assert Claimed(visited, [a]) == Claimed(visited, []) + [a];
    assert Claimed(visited, ab) == Claimed(visited, [a]) + [b];
  }

  /** A batch all of whose URLs were visited before lets no entry go on. */
  lemma NoneClaimed(visited: set<string>, batch: seq<Entry>)
    requires Urls(batch) <= visited
    ensures Claimed(visited, batch) == []
  {
  }

  /** Number of records of the given link type. */
  function CountKind(log: seq<Record>, kind: LinkType): (n: nat)
    ensures n <= |log|
  {
    if log == [] then 0
    else CountKind(log[..|log| - 1], kind) + (if log[|log| - 1].kind == kind then 1 else 0)
  }

  lemma {:induction false} CountKindAppend(log: seq<Record>, extra: seq<Record>, kind: LinkType)
    ensures CountKind(log + extra, kind) == CountKind(log, kind) + CountKind(extra, kind)
  {
    if extra != [] {
      var n := |extra| - 1;
      assert (log + extra)[..|log + extra| - 1] == log + extra[..n];
      assert (log + extra)[|log + extra| - 1] == extra[n];
      CountKindAppend(log, extra[..n], kind);
    } else {
      assert log + extra == log;
    }
  }

  lemma CountKindAppendOne(log: seq<Record>, r: Record, kind: LinkType)
    ensures CountKind(log + [r], kind) == CountKind(log, kind) + (if r.kind == kind then 1 else 0)
  {
    assert (log + [r])[..|log|] == log;
  }
}
