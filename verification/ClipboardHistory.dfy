/** The clipboard history: newest first, pruned from the end, favourites moved out of the way. */
module ClipboardHistory {
  import opened Bytes
  import opened Options
  import opened Sequences

  datatype Entry = Entry(id: string, mimeType: string, data: Data, isFavorite: bool)

  /** How many entries beyond the maximum favourites may keep alive. */
  const SLACK := 10

  function Kept(e: Entry, favorite: bool): seq<Entry> {
    if e.isFavorite == favorite then [e] else []
  }

  function Select(entries: seq<Entry>, favorite: bool): seq<Entry> {
    if entries == [] then [] else Kept(entries[0], favorite) + Select(entries[1..], favorite)
  }

  function Favorites(entries: seq<Entry>): seq<Entry> {
    Select(entries, true)
  }

  function Others(entries: seq<Entry>): seq<Entry> {
    Select(entries, false)
  }

  // ---- The loop, turn by turn ----

  /** The loop condition of `pruneOldEntries`, and its `break`. */
  predicate Stopped(entries: seq<Entry>, max: nat) {
    |entries| <= max || (entries[|entries| - 1].isFavorite && |entries| <= max + SLACK)
  }

  /** A favourite at the end moves to the front, anything else is dropped. */
  function Turn(entries: seq<Entry>): seq<Entry>
    requires entries != []
  {
    var last, rest := entries[|entries| - 1], entries[..|entries| - 1];
    if last.isFavorite then [last] + rest else rest
  }

  function Turns(entries: seq<Entry>, max: nat, n: nat): seq<Entry>
    decreases n
  {
    if n == 0 || Stopped(entries, max) then entries else Turns(Turn(entries), max, n - 1)
  }

  /** The loop comes to its end. */
  ghost predicate Terminates(entries: seq<Entry>, max: nat) {
    exists n :: Stopped(Turns(entries, max, n), max)
  }

  /** How many favourites stand behind the last other entry. */
  function Trailing(entries: seq<Entry>): nat {
    if entries == [] || !entries[|entries| - 1].isFavorite then 0 else 1 + Trailing(entries[..|entries| - 1])
  }

  lemma {:induction false} SelectAppend(entries: seq<Entry>, e: Entry, favorite: bool)
    ensures Select(entries + [e], favorite)
         == Select(entries, favorite) + Kept(e, favorite)
  {
    if entries == [] {
      assert entries + [e] == [e];
    } else {
      var tail := entries[1..];
      assert (entries + [e])[1..] == tail + [e];
      SelectAppend(tail, e, favorite);
      Associate(Kept(entries[0], favorite), Select(tail, favorite), Kept(e, favorite));
    }
  }

  lemma SelectFront(e: Entry, rest: seq<Entry>, favorite: bool)
    ensures Select([e] + rest, favorite) == Kept(e, favorite) + Select(rest, favorite)
  {
    assert ([e] + rest)[1..] == rest;
  }

  /** What a turn does to the favourites and to the other entries. */
  lemma TurnSelects(entries: seq<Entry>)
    requires entries != []
    ensures
      var last, rest, next := entries[|entries| - 1], entries[..|entries| - 1], Turn(entries);
      if last.isFavorite
      then && Favorites(entries) == Favorites(rest) + [last] && Favorites(next) == [last] + Favorites(rest)
           && Others(entries) == Others(next) == Others(rest)
      else && Favorites(entries) == Favorites(next) == Favorites(rest)
           && Others(entries) == Others(rest) + [last] && Others(next) == Others(rest)
  {
    var last, rest := entries[|entries| - 1], entries[..|entries| - 1];
    assert entries == rest + [last];
    SelectAppend(rest, last, true);
    SelectAppend(rest, last, false);
    SelectFront(last, rest, true);
    SelectFront(last, rest, false);
  }

  lemma {:induction false} Partition(entries: seq<Entry>)
    ensures |Favorites(entries)| + |Others(entries)| == |entries|
  {
    if entries != [] {
      Partition(entries[1..]);
    }
  }

  lemma {:induction false} TrailingBehindFront(f: Entry, rest: seq<Entry>)
    requires f.isFavorite && Others(rest) != []
    ensures Trailing([f] + rest) == Trailing(rest)
    decreases |rest|
  {
    var all := [f] + rest;
    assert all[|all| - 1] == rest[|rest| - 1];
    if rest[|rest| - 1].isFavorite {
      TurnSelects(rest);
      assert all[..|all| - 1] == [f] + rest[..|rest| - 1];
      TrailingBehindFront(f, rest[..|rest| - 1]);
    }
  }

  /** A turn either drops an entry or brings the last other entry nearer to the end. */
  lemma TurnDescends(entries: seq<Entry>, max: nat)
    requires |Favorites(entries)| <= max + SLACK && !Stopped(entries, max)
    ensures
      var next := Turn(entries);
      && |Favorites(next)| == |Favorites(entries)|
      && (|next| < |entries| || (|next| == |entries| && Trailing(next) < Trailing(entries)))
  {
    var last, rest := entries[|entries| - 1], entries[..|entries| - 1];
    TurnSelects(entries);
    if last.isFavorite {
      Partition(rest);
      TrailingBehindFront(last, rest);
    }
  }

  /** The value of the loop, where it has one. */
  function Pruned(entries: seq<Entry>, max: nat): seq<Entry>
    requires |Favorites(entries)| <= max + SLACK
    decreases |entries|, Trailing(entries)
  {
    if Stopped(entries, max) then entries else
      TurnDescends(entries, max);
      Pruned(Turn(entries), max)
  }

  lemma {:induction false} TerminatesWithFewFavorites(entries: seq<Entry>, max: nat) returns (n: nat)
    requires |Favorites(entries)| <= max + SLACK
    ensures Stopped(Turns(entries, max, n), max)
    ensures Turns(entries, max, n) == Pruned(entries, max)
    decreases |entries|, Trailing(entries)
  {
    n := 0;
    if !Stopped(entries, max) {
      TurnDescends(entries, max);
      n := TerminatesWithFewFavorites(Turn(entries), max);
      n := n + 1;
    }
  }

  lemma {:induction false} RotatesForever(entries: seq<Entry>, max: nat, n: nat)
    requires max + SLACK < |Favorites(entries)|
    ensures !Stopped(Turns(entries, max, n), max)
    decreases n
  {
    Partition(entries);
    if n != 0 && !Stopped(entries, max) {
      TurnSelects(entries);
      RotatesForever(Turn(entries), max, n - 1);
    }
  }

  /** The prune loop terminates exactly when the favourites are at most ten more than the
      maximum. With more it rotates them forever. */
  lemma TerminatesExactly(entries: seq<Entry>, max: nat)
    ensures Terminates(entries, max) <==> |Favorites(entries)| <= max + SLACK
  {
    if |Favorites(entries)| <= max + SLACK {
      var n := TerminatesWithFewFavorites(entries, max);
    } else {
      forall n: nat ensures !Stopped(Turns(entries, max, n), max) {
        RotatesForever(entries, max, n);
      }
    }
  }

  lemma {:induction false} AllFavorites(entries: seq<Entry>)
    requires forall e | e in entries :: e.isFavorite
    ensures Favorites(entries) == entries
  {
    if entries != [] {
      assert entries[0].isFavorite;
      AllFavorites(entries[1..]);
    }
  }

  /** Twenty-one favourites are fine at the default maximum of fifty, but lowering the maximum to
      ten makes the loop run forever; twenty are not too many for it. */
  lemma LoweringTheMaximumCanHang(entries: seq<Entry>)
    requires forall e | e in entries :: e.isFavorite
    ensures Terminates(entries, 10) <==> |entries| <= 20
    ensures Terminates(entries, 50) <==> |entries| <= 60
  {
    AllFavorites(entries);
    TerminatesExactly(entries, 10);
    TerminatesExactly(entries, 50);
  }

  // ---- What is left ----

  /** Moving the last `k` elements to the front. */
  function Rotate(s: seq<Entry>, k: nat): seq<Entry>
    requires k <= |s|
  {
    s[|s| - k..] + s[..|s| - k]
  }

  /** Pruning keeps every favourite, rotated, and the newest of the other entries, in order; it
      leaves at most ten entries more than the maximum, and drops none that still fits. */
  lemma {:induction false} PruneKeeps(entries: seq<Entry>, max: nat) returns (k: nat)
    requires |Favorites(entries)| <= max + SLACK
    ensures
      var left := Pruned(entries, max);
      && k <= |Favorites(entries)| && Favorites(left) == Rotate(Favorites(entries), k)
      && Others(left) <= Others(entries)
      && |left| <= max + SLACK
      && (if |entries| <= max then left == entries else max <= |left|)
    decreases |entries|, Trailing(entries)
  {
    k := 0;
    if Stopped(entries, max) {
      assert Rotate(Favorites(entries), 0) == Favorites(entries);
    } else {
      var last, rest := entries[|entries| - 1], entries[..|entries| - 1];
      TurnDescends(entries, max);
      TurnSelects(entries);
      k := PruneKeeps(Turn(entries), max);
      if last.isFavorite {
        k := RotateOnce(Favorites(entries), last, Favorites(rest), k);
      }
    }
  }

  lemma RotateOnce(s: seq<Entry>, last: Entry, rest: seq<Entry>, k: nat) returns (k': nat)
    requires s == rest + [last] && k <= |s|
    ensures k' <= |s| && Rotate(s, k') == Rotate([last] + rest, k)
  {
    var turned := [last] + rest;
    if k < |s| {
      k' := k + 1;
      assert s[|s| - k'..] == turned[|s| - k..] + [last];
      assert turned[..|s| - k] == [last] + s[..|s| - k'];
    } else {
      k' := 1;
      assert turned[0..] == turned && turned[..0] == [];
      assert s[|s| - 1..] == [last] && s[..|s| - 1] == rest;
    }
  }

  /** More than the maximum are left only with a favourite at the end. */
  lemma {:induction false} ExcessIsFavorite(entries: seq<Entry>, max: nat)
    requires |Favorites(entries)| <= max + SLACK
    ensures
      var left := Pruned(entries, max);
      |left| <= max || (left[|left| - 1].isFavorite && |left| <= max + SLACK)
    decreases |entries|, Trailing(entries)
  {
    if !Stopped(entries, max) {
      TurnDescends(entries, max);
      ExcessIsFavorite(Turn(entries), max);
    }
  }

  /** An entry just added survives as long as the favourites leave room below the maximum. */
  lemma NewestIsKept(entry: Entry, entries: seq<Entry>, max: nat)
    requires !entry.isFavorite && |Favorites(entries)| < max
    ensures |Favorites([entry] + entries)| == |Favorites(entries)|
    ensures entry in Pruned([entry] + entries, max)
  {
    var all := [entry] + entries;
    assert all[1..] == entries;
    var k := PruneKeeps(all, max);
    var left := Pruned(all, max);
    Partition(all);
    Partition(left);
    assert Others(left)[0] == Others(all)[0] == entry;
    OthersAreEntries(left, entry);
  }

  lemma {:induction false} OthersAreEntries(entries: seq<Entry>, e: Entry)
    requires e in Others(entries)
    ensures e in entries
  {
    if entries[0] != e {
      OthersAreEntries(entries[1..], e);
    }
  }

  // ---- The history object ----

  class History {
    var entries: seq<Entry>
    var maxEntries: nat

    /** What every operation at a fixed maximum keeps: the history is small enough for the next
        prune to end. */
    ghost predicate Valid()
      reads this
    {
      |entries| <= maxEntries + SLACK
    }

    constructor ()
      ensures Valid() && entries == [] && maxEntries == 50
    {
      entries, maxEntries := [], 50;
    }

    /** `ends` is false where the source's loop rotates the favourites forever. */
    method PruneOldEntries() returns (ends: bool)
      modifies this`entries
      ensures ends <==> Terminates(old(entries), maxEntries)
      ensures ends <==> |Favorites(old(entries))| <= maxEntries + SLACK
      ensures if ends then Valid() && entries == Pruned(old(entries), maxEntries) else entries == old(entries)
    {
      TerminatesExactly(entries, maxEntries);
      if |Favorites(entries)| > maxEntries + SLACK {
        return false;
      }
      ghost var k := PruneKeeps(entries, maxEntries);
      while |entries| > maxEntries
        invariant |Favorites(entries)| <= maxEntries + SLACK
        invariant Pruned(entries, maxEntries) == Pruned(old(entries), maxEntries)
        decreases |entries|, Trailing(entries)
      {
        var last := entries[|entries| - 1];
        if last.isFavorite && |entries| <= maxEntries + SLACK {
          break;
        }
        TurnDescends(entries, maxEntries);
        ghost var next := Turn(entries);
        if last.isFavorite {
          entries := [last] + entries[..|entries| - 1];
        } else {
          entries := entries[..|entries| - 1];
        }
        assert entries == next;
      }
      return true;
    }

    /** Returns the entry that holds the data; nothing is added for empty or known data. */
    method AddEntry(id: string, mimeType: string, data: Data) returns (entry: Option<Entry>)
      requires Valid()
      modifies this`entries
      ensures Valid()
      ensures data == [] ==> entry == None && entries == old(entries)
      ensures data != [] ==> entry.Some? && entry.value.mimeType == mimeType && entry.value.data == data
      ensures data != [] && Known(old(entries), mimeType, data) ==> entry.value in old(entries) && entries == old(entries)
      ensures data != [] && !Known(old(entries), mimeType, data) ==>
        && entry.value == Entry(id, mimeType, data, false)
        && entries == PrunedWith(entry.value, old(entries), maxEntries)
    {
      if data == [] {
        return None;
      }
      for i := 0 to |entries|
        invariant !Known(entries[..i], mimeType, data)
      {
        if entries[i].mimeType == mimeType && entries[i].data == data {
          return Some(entries[i]);
        }
      }
      assert entries[..|entries|] == entries;
      var added := Entry(id, mimeType, data, false);
      FewFavorites(added, entries);
      entries := [added] + entries;
      var ends := PruneOldEntries();
      return Some(added);
    }

    method ToggleFavorite(id: string)
      requires Valid()
      modifies this`entries
      ensures Valid() && |entries| == |old(entries)|
      ensures forall i | 0 <= i < |entries| ::
        entries[i] == old(entries)[i] || entries[i] == old(entries)[i].(isFavorite := !old(entries)[i].isFavorite)
      ensures forall i | 0 <= i < |entries| && (old(entries)[i].id != id || (exists j | 0 <= j < i :: old(entries)[j].id == id)) ::
        entries[i] == old(entries)[i]
      ensures forall i | 0 <= i < |entries| && old(entries)[i].id == id && (forall j | 0 <= j < i :: old(entries)[j].id != id) ::
        entries[i].isFavorite != old(entries)[i].isFavorite
    {
      for i := 0 to |entries|
        invariant entries == old(entries)
        invariant forall j | 0 <= j < i :: entries[j].id != id
      {
        if entries[i].id == id {
          entries := entries[i := entries[i].(isFavorite := !entries[i].isFavorite)];
          return;
        }
      }
    }

    method RemoveEntry(id: string)
      requires Valid()
      modifies this`entries
      ensures Valid()
      ensures (forall e | e in old(entries) :: e.id != id) ==> entries == old(entries)
      ensures (exists e | e in old(entries) :: e.id == id) ==>
        exists i | 0 <= i < |old(entries)| ::
          && old(entries)[i].id == id && (forall j | 0 <= j < i :: old(entries)[j].id != id)
          && entries == old(entries)[..i] + old(entries)[i + 1..]
    {
      for i := 0 to |entries|
        invariant entries == old(entries)
        invariant forall j | 0 <= j < i :: entries[j].id != id
      {
        if entries[i].id == id {
          entries := entries[..i] + entries[i + 1..];
          return;
        }
      }
    }

    /** Lowering the maximum is the one operation that can meet too many favourites. */
    method SetMaxEntries(max: int) returns (ends: bool)
      modifies this
      ensures maxEntries == if max < 10 then 10 else max
      ensures ends <==> |Favorites(old(entries))| <= maxEntries + SLACK
      ensures if ends then Valid() && entries == Pruned(old(entries), maxEntries) else entries == old(entries)
    {
      maxEntries := if max < 10 then 10 else max;
      ends := PruneOldEntries();
    }
  }

  predicate Known(entries: seq<Entry>, mimeType: string, data: Data) {
    exists i | 0 <= i < |entries| :: entries[i].mimeType == mimeType && entries[i].data == data
  }

  function PrunedWith(entry: Entry, entries: seq<Entry>, max: nat): seq<Entry>
    requires !entry.isFavorite && |entries| <= max + SLACK
  {
    FewFavorites(entry, entries);
    Pruned([entry] + entries, max)
  }

  /** A history that respects the bound can take one more entry. */
  lemma FewFavorites(entry: Entry, entries: seq<Entry>)
    requires !entry.isFavorite
    ensures |Favorites([entry] + entries)| <= |entries|
  {
    assert ([entry] + entries)[1..] == entries;
    Partition(entries);
  }
}
