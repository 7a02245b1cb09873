/** A field template: an insertion-ordered dict from title id to
    `[title, content]`, as the proposal's content, info and engineer dicts
    and the handler's engineers_rates dict are. */
module Catalogs {
  datatype Entry = Entry(title: string, content: string)

  datatype Catalog = Catalog(keys: seq<string>, entries: map<string, Entry>)

  /** Keys are listed once each, in insertion order, and are exactly the dict's keys. */
  predicate Valid(c: Catalog) {
    && (forall i, j :: 0 <= i < j < |c.keys| ==> c.keys[i] != c.keys[j])
    && (forall k :: k in c.keys ==> k in c.entries)
    && (forall k :: k in c.entries ==> k in c.keys)
  }

  const EMPTY: Catalog := Catalog([], map[])

  /** `d[k] = e`: an existing key keeps its position, a new key goes last. */
  function Put(c: Catalog, k: string, e: Entry): Catalog {
    if k in c.entries then c.(entries := c.entries[k := e])
    else Catalog(c.keys + [k], c.entries[k := e])
  }

  /** `d[k][1] = v`: replaces the content of one existing title, keeping its title. */
  function SetContent(c: Catalog, k: string, v: string): Catalog
    requires k in c.entries
  {
    Put(c, k, c.entries[k].(content := v))
  }

  /** The template with every title's content emptied, titles and order kept. */
  function Cleared(c: Catalog): Catalog {
    c.(entries := map k | k in c.entries :: c.entries[k].(content := ""))
  }

  /** Putting keeps a template well formed, holds the new entry under `k`,
      leaves every other entry alone, and appends `k` only when it is new. */
  lemma PutValid(c: Catalog, k: string, e: Entry)
    requires Valid(c)
    ensures var r := Put(c, k, e);
      && Valid(r)
      && k in r.entries && r.entries[k] == e
      && (forall k' :: k' != k ==> (k' in r.entries <==> k' in c.entries))
      && (forall k' :: k' != k && k' in c.entries ==> r.entries[k'] == c.entries[k'])
      && r.keys == (if k in c.entries then c.keys else c.keys + [k])
  {
  }

  /** Setting a content keeps the template's titles and order and changes that content only. */
  lemma SetContentValid(c: Catalog, k: string, v: string)
    requires Valid(c) && k in c.entries
    ensures var r := SetContent(c, k, v);
      && Valid(r) && r.keys == c.keys && r.entries.Keys == c.entries.Keys
      && r.entries[k] == Entry(c.entries[k].title, v)
      && (forall k' :: k' in c.entries && k' != k ==> r.entries[k'] == c.entries[k'])
  {
  }

  /** Clearing keeps the template's titles and order and empties every content. */
  lemma ClearedValid(c: Catalog)
    requires Valid(c)
    ensures var r := Cleared(c);
      && Valid(r) && r.keys == c.keys && r.entries.Keys == c.entries.Keys
      && (forall k :: k in r.entries ==> r.entries[k] == Entry(c.entries[k].title, ""))
  {
    var r := Cleared(c);
    assert r.entries.Keys == c.entries.Keys;
  }

  /** Clearing twice is clearing once. */
  lemma ClearedIdempotent(c: Catalog)
    ensures Cleared(Cleared(c)) == Cleared(c)
  {
    assert Cleared(Cleared(c)).entries == Cleared(c).entries;
  }

  /** The last of two stores into one title wins. */
  lemma SetContentLastWins(c: Catalog, k: string, u: string, v: string)
    requires k in c.entries
    ensures SetContent(SetContent(c, k, u), k, v) == SetContent(c, k, v)
  {
    assert SetContent(SetContent(c, k, u), k, v).entries == SetContent(c, k, v).entries;
  }

  /** Filling in a title just put is putting it filled in. */
  lemma PutThenSetContent(c: Catalog, k: string, e: Entry, v: string)
    ensures SetContent(Put(c, k, e), k, v) == Put(c, k, e.(content := v))
  {
    assert SetContent(Put(c, k, e), k, v).entries == Put(c, k, e.(content := v)).entries;
  }

  /** Clearing forgets what was stored. */
  lemma ClearedAfterSetContent(c: Catalog, k: string, v: string)
    requires k in c.entries
    ensures Cleared(SetContent(c, k, v)) == Cleared(c)
  {
    assert Cleared(SetContent(c, k, v)).entries == Cleared(c).entries;
  }
}
