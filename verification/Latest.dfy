/** Maps built from a list in which a later item replaces an earlier one with the same key. */
module Latest {

  datatype Tagged<I> = Skip | Item(key: string, info: I)

  function LatestWins<I>(items: seq<Tagged<I>>, n: nat): map<string, I>
    requires n <= |items|
  {
    if n == 0 then map[]
    else if items[n - 1].Item? then LatestWins(items, n - 1)[items[n - 1].key := items[n - 1].info]
    else LatestWins(items, n - 1)
  }

  lemma {:induction false} HasEveryKey<I>(items: seq<Tagged<I>>, n: nat, i: nat)
    requires i < n <= |items| && items[i].Item?
    ensures items[i].key in LatestWins(items, n)
  {
    if i < n - 1 {
      HasEveryKey(items, n - 1, i);
    }
  }

  lemma {:induction false} IsTheLatest<I>(items: seq<Tagged<I>>, n: nat, key: string) returns (i: nat)
    requires n <= |items| && key in LatestWins(items, n)
    ensures i < n && items[i] == Item(key, LatestWins(items, n)[key])
    ensures forall j | i < j < n && items[j].Item? :: items[j].key != key
  {
    if items[n - 1].Item? && items[n - 1].key == key {
      i := n - 1;
    } else {
      i := IsTheLatest(items, n - 1, key);
    }
  }
}
