/**
 * Category deduplication: the navigation links are put into a JavaScript `Map`
 * keyed by URL and its values are read back in insertion order. A key keeps the
 * position of its first insertion; setting it again replaces the value.
 */
module Categories {

  /** A category link of the navigation menu: its trimmed text and its absolute URL. */
  datatype Category = Category(name: string, url: string)

  /** A JavaScript `Map` from URL to category: the keys in insertion order and the entries. */
  datatype InsertionMap = InsertionMap(keys: seq<string>, entries: map<string, Category>)

  /** `map.set(c.url, c)`: a new key goes to the end, an existing key keeps its place. */
  function Put(m: InsertionMap, c: Category): InsertionMap
  {
    if c.url in m.entries then InsertionMap(m.keys, m.entries[c.url := c])
    else InsertionMap(m.keys + [c.url], m.entries[c.url := c])
  }

  /** `new Map(links.map(item => [item.url, item]))`, continuing from `m`. */
  function Build(m: InsertionMap, links: seq<Category>): InsertionMap
    decreases |links|
  {
    if links == [] then m else Build(Put(m, links[0]), links[1..])
  }

  /** The URLs that occur among `links`. */
  function Urls(links: seq<Category>): set<string>
  {
    set c | c in links :: c.url
  }

  /** Some link before position `k` has URL `u`. */
  predicate OccursBefore(links: seq<Category>, u: string, k: int)
  {
    exists k' :: 0 <= k' < k && k' < |links| && links[k'].url == u
  }

  /** `c` is one of `links`, and no later link has its URL. */
  predicate LastWithUrl(links: seq<Category>, c: Category)
  {
    exists k :: 0 <= k < |links| && links[k] == c && forall k' :: k < k' < |links| ==> links[k'].url != c.url
  }

  /** Every URL is a key at most once, and the keys are exactly the entries' URLs. */
  ghost predicate KeysMatch(m: InsertionMap, links: seq<Category>)
  {
    (forall i, j :: 0 <= i < j < |m.keys| ==> m.keys[i] != m.keys[j]) &&
    (forall u :: u in m.entries <==> u in m.keys) &&
    m.entries.Keys == Urls(links)
  }

  /** Each entry is filed under its own URL and is the last link with that URL. */
  ghost predicate EntriesLast(m: InsertionMap, links: seq<Category>)
  {
    forall u :: u in m.entries ==> m.entries[u].url == u && LastWithUrl(links, m.entries[u])
  }

  /** The keys are in order of first occurrence among the links. */
  ghost predicate KeysInFirstOrder(m: InsertionMap, links: seq<Category>)
  {
    forall i, j, k :: 0 <= i < j < |m.keys| && 0 <= k < |links| && links[k].url == m.keys[j] ==>
      OccursBefore(links, m.keys[i], k)
  }

  /** `m` is the map built from `links`: one key per distinct URL in the order of first
      occurrence, each holding the last link with that URL. */
  ghost predicate Tracks(m: InsertionMap, links: seq<Category>)
  {
    KeysMatch(m, links) && EntriesLast(m, links) && KeysInFirstOrder(m, links)
  }

  lemma UrlsSnoc(done: seq<Category>, c: Category)
    ensures Urls(done + [c]) == Urls(done) + {c.url}
  {
    var all := done + [c];
    forall u | u in Urls(all) ensures u in Urls(done) + {c.url} {
      var d :| d in all && d.url == u;
      if d != c { assert d in done; }
    }
    forall u | u in Urls(done) ensures u in Urls(all) {
      var d :| d in done && d.url == u;
      assert d in all;
    }
  }

  lemma PutKeysMatch(m: InsertionMap, done: seq<Category>, c: Category)
    requires KeysMatch(m, done)
    ensures KeysMatch(Put(m, c), done + [c])
  {
    UrlsSnoc(done, c);
  }

  lemma PutEntriesLast(m: InsertionMap, done: seq<Category>, c: Category)
    requires EntriesLast(m, done)
    ensures EntriesLast(Put(m, c), done + [c])
  {
    var m', all := Put(m, c), done + [c];
    forall u | u in m'.entries
      ensures m'.entries[u].url == u && LastWithUrl(all, m'.entries[u])
    {
      if u == c.url {
        assert all[|done|] == c;
      } else {
        var k :| 0 <= k < |done| && done[k] == m.entries[u] &&
          forall k' :: k < k' < |done| ==> done[k'].url != m.entries[u].url;
        assert all[k] == m'.entries[u];
        forall k' | k < k' < |all| ensures all[k'].url != u {
          if k' < |done| { assert all[k'] == done[k']; }
        }
      }
    }
  }

  lemma PutKeysInFirstOrder(m: InsertionMap, done: seq<Category>, c: Category)
    requires KeysMatch(m, done) && KeysInFirstOrder(m, done)
    ensures KeysInFirstOrder(Put(m, c), done + [c])
  {
    var m', all := Put(m, c), done + [c];
    forall i, j, k | 0 <= i < j < |m'.keys| && 0 <= k < |all| && all[k].url == m'.keys[j]
      ensures OccursBefore(all, m'.keys[i], k)
    {
      assert m'.keys[i] == m.keys[i] && m.keys[i] in m.entries;
      if k < |done| && j < |m.keys| {
        assert done[k] == all[k];
        var k' :| 0 <= k' < k && k' < |done| && done[k'].url == m'.keys[i];
        assert all[k'] == done[k'];
      } else {
        if j == |m.keys| {
          // the key this insertion added is c.url, which no earlier link has
          forall k0 | 0 <= k0 < |done| ensures done[k0].url != c.url {
            assert done[k0] in done;
          }
        }
        assert k == |done|;
        var d :| d in done && d.url == m'.keys[i];
        var k' :| 0 <= k' < |done| && done[k'] == d;
        assert all[k'] == done[k'];
      }
    }
  }

  /** One insertion keeps the map in step with the links seen so far. */
  lemma PutTracks(m: InsertionMap, done: seq<Category>, c: Category)
    requires Tracks(m, done)
    ensures Tracks(Put(m, c), done + [c])
  {
    PutKeysMatch(m, done, c);
    PutEntriesLast(m, done, c);
    PutKeysInFirstOrder(m, done, c);
  }

  /** Building from the remaining links keeps the map in step. */
  lemma {:induction false} BuildTracks(m: InsertionMap, done: seq<Category>, rest: seq<Category>)
    requires Tracks(m, done)
    ensures Tracks(Build(m, rest), done + rest)
    decreases |rest|
  {
    if rest == [] {
      assert done + rest == done;
    } else {
      var next := done + [rest[0]];
      assert next + rest[1..] == done + rest;
      PutTracks(m, done, rest[0]);
      BuildTracks(Put(m, rest[0]), next, rest[1..]);
    }
  }

  /** `Array.from(map.values())`: the entries in key order. */
  function Values(m: InsertionMap): seq<Category>
    requires forall i :: 0 <= i < |m.keys| ==> m.keys[i] in m.entries
  {
    seq(|m.keys|, i requires 0 <= i < |m.keys| => m.entries[m.keys[i]])
  }

  /** The values of a map built from `links` meet the dedup contract. */
  lemma ValuesOfTracked(m: InsertionMap, links: seq<Category>)
    requires KeysMatch(m, links) && EntriesLast(m, links)
    ensures forall i :: 0 <= i < |m.keys| ==> m.keys[i] in m.entries
    ensures var r := Values(m);
      (forall i :: 0 <= i < |r| ==> r[i].url == m.keys[i] && LastWithUrl(links, r[i])) &&
      Urls(r) == Urls(links)
  {
    var r := Values(m);
    forall u | u in Urls(links) ensures u in Urls(r) {
      var i :| 0 <= i < |m.keys| && m.keys[i] == u;
      assert r[i] in r;
    }
  }

  /** `uniqueCategories`: one entry per distinct URL, ordered by the URL's first
      occurrence, each the last link seen with that URL. */
  function UniqueCategories(links: seq<Category>): (r: seq<Category>)
    ensures forall i, j :: 0 <= i < j < |r| ==> r[i].url != r[j].url
    ensures Urls(r) == Urls(links)
    ensures forall i :: 0 <= i < |r| ==> LastWithUrl(links, r[i])
    ensures forall i, j, k :: 0 <= i < j < |r| && 0 <= k < |links| && links[k].url == r[j].url ==>
              OccursBefore(links, r[i].url, k)
  {
    var empty := InsertionMap([], map[]);
    BuildTracks(empty, [], links);
    assert [] + links == links;
    var m := Build(empty, links);
    ValuesOfTracked(m, links);
    Values(m)
  }
}
