/** The MinIO article store (minio_storage.py): object keys derived from an
    article's title and publish time, save-if-absent, batch saving, the
    per-day key prefixes, listing by date with a limit and a newest-first
    sort, and keyword search.  The bucket is an abstract key -> document map
    together with the order in which a listing returns its keys. */
module MinioStorage {
  import opened Wrappers
  import opened Text
  import opened Calendar

  // ---------------------------------------------------------------------
  // Article documents
  // ---------------------------------------------------------------------

  /** A JSON value of an article dict; the crawler writes strings and booleans. */
  datatype Value = Str(s: string) | Bool(b: bool)

  /** An article dict. */
  type Fields = map<string, Value>

  /** How an f-string renders a value. */
  function Show(v: Value): string {
    match v
    case Str(s) => s
    case Bool(b) => if b then "True" else "False"
  }

  /** article.get(key, default) read as text (a non-string value reads as
      the default). */
  function TextOr(d: Fields, key: string, default: string): string {
    if key in d && d[key].Str? then d[key].s else default
  }

  /** A mutable article dict, shared between the caller and the store. */
  class Document {
    var fields: Fields

    constructor(fields: Fields)
      ensures this.fields == fields
    {
      this.fields := fields;
    }
  }

  /** The two readings of datetime.now() a save takes: the ISO time stamp
      and today's date as "%Y-%m-%d". */
  datatype Clock = Clock(iso: string, today: string)

  /** s[:n] for n >= 0. */
  function Prefix(s: string, n: nat): (r: string)
    ensures r <= s && |r| == if |s| < n then |s| else n
  {
    if |s| < n then s else s[..n]
  }

  // ---------------------------------------------------------------------
  // Object keys
  // ---------------------------------------------------------------------

  /** The key prefix under which one day's articles are stored. */
  function DatePrefix(d: Date): string
    requires InRange(d)
  {
    "articles/" + FormatDate(d) + "/"
  }

  /** _generate_object_key: "articles/<day>/<first 8 hex digits of
      md5(title + publish_time)>.json".  None where it raises (a
      publish_time that is not a string has no len()). */
  function ObjectKey(d: Fields, clock: Clock, md5: string -> string): (r: Option<string>)
    ensures r.Some? <==> !("publish_time" in d && d["publish_time"].Bool?)
    ensures r.Some? ==> "articles/" <= r.value
  {
    var title := if "title" in d then Show(d["title"]) else "unknown";
    if "publish_time" in d && d["publish_time"].Bool? then None
    else
      var time := TextOr(d, "publish_time", clock.iso);
      var day := if |time| >= 10 then time[..10] else clock.today;
      Some("articles/" + day + "/" + Prefix(md5(title + time), 8) + ".json")
  }

  /** The dict with its saved_at stamp set. */
  function Stamp(d: Fields, iso: string): Fields {
    d["saved_at" := Str(iso)]
  }

  /** `g` is `f`, or `f` stamped at `iso`. */
  predicate StampedOrSame(g: Fields, f: Fields, iso: string) {
    g == f || g == Stamp(f, iso)
  }

  /** An article whose key does not depend on when it is saved: it carries a
      string publish_time of at least ten characters. */
  predicate KeyStable(d: Fields) {
    "publish_time" in d && d["publish_time"].Str? && |d["publish_time"].s| >= 10
  }

  /** The key depends on the title and the publish time and on nothing else
      of the article; for a stable article not on the clock either. */
  lemma KeyDependsOnTitleAndTime(d1: Fields, d2: Fields, c1: Clock, c2: Clock, md5: string -> string)
    requires ("title" in d1 <==> "title" in d2) && ("title" in d1 ==> d1["title"] == d2["title"])
    requires ("publish_time" in d1 <==> "publish_time" in d2)
    requires "publish_time" in d1 ==> d1["publish_time"] == d2["publish_time"]
    requires c1 == c2 || (KeyStable(d1) && KeyStable(d2))
    ensures ObjectKey(d1, c1, md5) == ObjectKey(d2, c2, md5)
  {
  }

  /** The saved_at stamp a save adds does not move the article's key. */
  lemma KeyIgnoresStamp(d: Fields, stamp: string, c1: Clock, c2: Clock, md5: string -> string)
    requires c1 == c2 || KeyStable(d)
    ensures ObjectKey(Stamp(d, stamp), c2, md5) == ObjectKey(d, c1, md5)
  {
    KeyDependsOnTitleAndTime(Stamp(d, stamp), d, c2, c1, md5);
  }

  /** An article published on day `day` is stored under that day's prefix. */
  lemma KeyUnderDay(d: Fields, day: Date, clock: Clock, md5: string -> string)
    requires InRange(day) && day.year >= 1000
    requires "publish_time" in d && d["publish_time"].Str? && FormatDate(day) <= d["publish_time"].s
    ensures ObjectKey(d, clock, md5).Some? && DatePrefix(day) <= ObjectKey(d, clock, md5).value
  {
    FormatDateShape(day);
    var time := d["publish_time"].s;
    assert time[..10] == FormatDate(day);
  }

  // ---------------------------------------------------------------------
  // The bucket
  // ---------------------------------------------------------------------

  /** Keys strictly ascending in Python string order. */
  predicate Ascending(keys: seq<string>) {
    forall i, j :: 0 <= i < j < |keys| ==> Less(keys[i], keys[j])
  }

  /** `keys` with `k` inserted at its place in the order. */
  function InsertKey(keys: seq<string>, k: string): (r: seq<string>)
    requires Ascending(keys) && k !in keys
    ensures Ascending(r)
    ensures forall x :: x in r <==> x == k || x in keys
    decreases |keys|
  {
    if |keys| == 0 then [k]
    else if Less(k, keys[0]) then
      assert forall j :: 0 < j < |keys| ==> Less(k, keys[j]) by {
        forall j | 0 < j < |keys| {
          LessTransitive(k, keys[0], keys[j]);
        }
      }
      [k] + keys
    else
      var rest := InsertKey(keys[1..], k);
      LessTotal(k, keys[0]);
      assert forall x :: x in rest ==> Less(keys[0], x) by {
        forall x | x in rest
          ensures Less(keys[0], x)
        {
          if x != k {
            var j :| 0 <= j < |keys[1..]| && keys[1..][j] == x;
            assert keys[j + 1] == x;
          }
        }
      }
      [keys[0]] + rest
  }

  /** The bucket's objects and the order in which a listing returns their
      keys (ascending, as MinIO lists). */
  datatype Bucket = Bucket(objects: map<string, Fields>, keys: seq<string>) {
    ghost predicate Valid() {
      Ascending(keys)
      && (forall k :: k in keys ==> k in objects)
      && (forall k :: k in objects ==> k in keys)
    }

    /** put_object of a new key. */
    function Put(key: string, doc: Fields): (r: Bucket)
      requires Valid() && key !in objects
      ensures r.Valid()
      ensures r.objects == objects[key := doc]
    {
      Bucket(objects[key := doc], InsertKey(keys, key))
    }
  }

  const EmptyBucket := Bucket(map[], [])

  /** What save_article leaves behind: the bucket, the caller's dict and the
      returned flag. */
  datatype Saved = Saved(bucket: Bucket, fields: Fields, saved: bool)

  /** save_article on values; every failure (an unkeyable article, a key
      already present) returns False without writing. */
  function Save(b: Bucket, fields: Fields, clock: Clock, md5: string -> string): (r: Saved)
    requires b.Valid()
    ensures r.bucket.Valid()
  {
    var key := ObjectKey(fields, clock, md5);
    if key.None? || key.value in b.objects then Saved(b, fields, false)
    else
      var stamped := Stamp(fields, clock.iso);
      Saved(b.Put(key.value, stamped), stamped, true)
  }

  /** Save-if-absent: True exactly when the key is new; then exactly one
      object is added, under that key, holding the stamped dict, and nothing
      else changes; otherwise neither the bucket nor the dict changes. */
  lemma SaveIfAbsent(b: Bucket, fields: Fields, clock: Clock, md5: string -> string)
    requires b.Valid()
    ensures var r := Save(b, fields, clock, md5);
      var key := ObjectKey(fields, clock, md5);
      && (r.saved <==> key.Some? && key.value !in b.objects)
      && (r.saved ==> r.bucket.objects.Keys == b.objects.Keys + {key.value}
                      && r.bucket.objects[key.value] == r.fields
                      && r.fields == Stamp(fields, clock.iso)
                      && (forall k :: k in b.objects ==> r.bucket.objects[k] == b.objects[k]))
      && (!r.saved ==> r.bucket == b && r.fields == fields)
  {
  }

  /** Saving an article a second time saves nothing, provided its key does
      not depend on the day.  The case `c1 == c2` stands for both calls
      reading the clock on the same day: the source reads `datetime.now()`
      afresh in each call, so across midnight only `KeyStable` articles
      (publish_time of 10 characters or more) are guaranteed a skip. */
  lemma SaveAgain(b: Bucket, fields: Fields, c1: Clock, c2: Clock, md5: string -> string)
    requires b.Valid()
    requires c1 == c2 || KeyStable(fields)
    ensures var r := Save(b, fields, c1, md5);
      var again := Save(r.bucket, r.fields, c2, md5);
      !again.saved && again.bucket == r.bucket
  {
    var r := Save(b, fields, c1, md5);
    if r.saved {
      KeyIgnoresStamp(fields, c1.iso, c1, c2, md5);
    } else {
      KeyDependsOnTitleAndTime(fields, fields, c1, c2, md5);
    }
  }

  /** Outcome of save_articles: the bucket, each dict as left behind, and
      the count of True results. */
  datatype SavedAll = SavedAll(bucket: Bucket, fields: seq<Fields>, count: nat)

  /** The first `n` saves of save_articles, the i-th reading the clock
      `clocks(i)`. */
  function SavePrefix(b: Bucket, fs: seq<Fields>, n: nat, clocks: nat -> Clock, md5: string -> string): (r: SavedAll)
    requires b.Valid() && n <= |fs|
    ensures r.bucket.Valid() && |r.fields| == n
  {
    if n == 0 then SavedAll(b, [], 0)
    else
      var p := SavePrefix(b, fs, n - 1, clocks, md5);
      var s := Save(p.bucket, fs[n - 1], clocks(n - 1), md5);
      SavedAll(s.bucket, p.fields + [s.fields], p.count + if s.saved then 1 else 0)
  }

  /** save_articles on values: save_article on each dict in order. */
  function SaveAll(b: Bucket, fs: seq<Fields>, clocks: nat -> Clock, md5: string -> string): (r: SavedAll)
    requires b.Valid()
    ensures r.bucket.Valid() && |r.fields| == |fs|
  {
    SavePrefix(b, fs, |fs|, clocks, md5)
  }

  /** The key of one article as a set (empty when it has none). */
  function KeyOf(key: Option<string>): set<string> {
    if key.Some? then {key.value} else {}
  }

  /** The key of each article of a batch, the i-th read at clock `clocks(i)`. */
  function BatchKeys(fs: seq<Fields>, clocks: nat -> Clock, md5: string -> string): (r: seq<Option<string>>)
    ensures |r| == |fs| && forall i :: 0 <= i < |fs| ==> r[i] == ObjectKey(fs[i], clocks(i), md5)
  {
    seq(|fs|, i requires 0 <= i < |fs| => ObjectKey(fs[i], clocks(i), md5))
  }

  /** The keys present among the first `n` of `ks`. */
  function KeySet(ks: seq<Option<string>>, n: nat): set<string>
    requires n <= |ks|
  {
    if n == 0 then {} else KeySet(ks, n - 1) + KeyOf(ks[n - 1])
  }

  /** The keys of a batch. */
  function KeysOf(fs: seq<Fields>, clocks: nat -> Clock, md5: string -> string): set<string> {
    KeySet(BatchKeys(fs, clocks, md5), |fs|)
  }

  /** One more article in a batch: how save_articles continues from the
      bucket, the dicts and the count so far. */
  lemma SaveAllNext(b: Bucket, fs: seq<Fields>, i: nat, clocks: nat -> Clock, md5: string -> string,
                    bucket: Bucket, out: seq<Fields>, count: nat, s: Saved)
    requires b.Valid() && i < |fs| && bucket.Valid()
    requires SavePrefix(b, fs, i, clocks, md5) == SavedAll(bucket, out, count)
    requires s == Save(bucket, fs[i], clocks(i), md5)
    ensures SavePrefix(b, fs, i + 1, clocks, md5)
      == SavedAll(s.bucket, out + [s.fields], count + if s.saved then 1 else 0)
  {
  }

  /** The first `n` saves of a batch do not depend on the dicts after them. */
  lemma {:induction false} SavePrefixExtend(b: Bucket, fs: seq<Fields>, more: seq<Fields>, n: nat,
                                            clocks: nat -> Clock, md5: string -> string)
    requires b.Valid() && n <= |fs|
    ensures SavePrefix(b, fs + more, n, clocks, md5) == SavePrefix(b, fs, n, clocks, md5)
  {
    if n > 0 {
      var m := n - 1;
      SavePrefixExtend(b, fs, more, m, clocks, md5);
      var p := SavePrefix(b, fs, m, clocks, md5);
      assert (fs + more)[m] == fs[m];
      SaveAllNext(b, fs + more, m, clocks, md5, p.bucket, p.fields, p.count, Save(p.bucket, fs[m], clocks(m), md5));
      SaveAllNext(b, fs, m, clocks, md5, p.bucket, p.fields, p.count, Save(p.bucket, fs[m], clocks(m), md5));
    }
  }

  /** A batch with one more dict at its end: the batch, then that dict,
      reading the next clock. */
  lemma SaveAllAppend(b: Bucket, fs: seq<Fields>, f: Fields, clocks: nat -> Clock, md5: string -> string,
                      p: SavedAll, s: Saved)
    requires b.Valid() && p == SaveAll(b, fs, clocks, md5)
    requires s == Save(p.bucket, f, clocks(|fs|), md5)
    ensures SaveAll(b, fs + [f], clocks, md5) == SavedAll(s.bucket, p.fields + [s.fields], p.count + if s.saved then 1 else 0)
  {
    SavePrefixExtend(b, fs, [f], |fs|, clocks, md5);
    assert (fs + [f])[|fs|] == f;
    SaveAllNext(b, fs + [f], |fs|, clocks, md5, p.bucket, p.fields, p.count, s);
  }

  lemma CountStep(old_: set<string>, seen: set<string>, key: Option<string>, saved: bool)
    requires saved <==> key.Some? && key.value !in old_ + seen
    ensures |(seen + KeyOf(key)) - old_| == |seen - old_| + if saved then 1 else 0
  {
    if saved {
      assert (seen + KeyOf(key)) - old_ == (seen - old_) + {key.value};
    } else if key.Some? {
      assert (seen + KeyOf(key)) - old_ == seen - old_;
    }
  }

  /** A save adds its article's key to the bucket's keys (if it has one). */
  lemma SaveKeys(b: Bucket, fields: Fields, clock: Clock, md5: string -> string)
    requires b.Valid()
    ensures Save(b, fields, clock, md5).bucket.objects.Keys == b.objects.Keys + KeyOf(ObjectKey(fields, clock, md5))
  {
    var key := ObjectKey(fields, clock, md5);
    if key.Some? && key.value in b.objects {
      assert b.objects.Keys + {key.value} == b.objects.Keys;
    }
  }

  /** After a batch the bucket holds exactly the old keys and the batch's keys. */
  lemma {:induction false} SaveAllKeys(b: Bucket, fs: seq<Fields>, n: nat, clocks: nat -> Clock, md5: string -> string)
    requires b.Valid() && n <= |fs|
    ensures SavePrefix(b, fs, n, clocks, md5).bucket.objects.Keys == b.objects.Keys + KeySet(BatchKeys(fs, clocks, md5), n)
  {
    if n > 0 {
      var m := n - 1;
      SaveAllKeys(b, fs, m, clocks, md5);
      var p := SavePrefix(b, fs, m, clocks, md5);
      SaveKeys(p.bucket, fs[m], clocks(m), md5);
    }
  }

  /** A batch never overwrites: every object already stored keeps its dict. */
  lemma {:induction false} SaveAllKeeps(b: Bucket, fs: seq<Fields>, n: nat, clocks: nat -> Clock, md5: string -> string)
    requires b.Valid() && n <= |fs|
    ensures var after := SavePrefix(b, fs, n, clocks, md5).bucket.objects;
      forall k :: k in b.objects ==> k in after && after[k] == b.objects[k]
  {
    if n > 0 {
      var m := n - 1;
      SaveAllKeeps(b, fs, m, clocks, md5);
      var p := SavePrefix(b, fs, m, clocks, md5);
      SaveIfAbsent(p.bucket, fs[m], clocks(m), md5);
    }
  }

  /** Whether a save writes: exactly when the article has a key that is new. */
  lemma SaveWrites(b: Bucket, fields: Fields, clock: Clock, md5: string -> string)
    requires b.Valid()
    ensures var key := ObjectKey(fields, clock, md5);
      Save(b, fields, clock, md5).saved <==> key.Some? && key.value !in b.objects
  {
  }

  /** How many of the first `n` of `ks` are keys neither in `old_` nor
      earlier in `ks`. */
  function FreshKeys(ks: seq<Option<string>>, n: nat, old_: set<string>): nat
    requires n <= |ks|
  {
    if n == 0 then 0
    else
      var key := ks[n - 1];
      FreshKeys(ks, n - 1, old_) + if key.Some? && key.value !in old_ + KeySet(ks, n - 1) then 1 else 0
  }

  /** The fresh keys counted one by one are the new distinct keys. */
  lemma {:induction false} FreshKeysCount(ks: seq<Option<string>>, n: nat, old_: set<string>)
    requires n <= |ks|
    ensures FreshKeys(ks, n, old_) == |KeySet(ks, n) - old_|
  {
    if n > 0 {
      var m := n - 1;
      FreshKeysCount(ks, m, old_);
      var key := ks[m];
      CountStep(old_, KeySet(ks, m), key, key.Some? && key.value !in old_ + KeySet(ks, m));
    }
  }

  /** The batch's count, one save at a time. */
  lemma {:induction false} SaveAllFresh(b: Bucket, fs: seq<Fields>, n: nat, clocks: nat -> Clock, md5: string -> string)
    requires b.Valid() && n <= |fs|
    ensures SavePrefix(b, fs, n, clocks, md5).count == FreshKeys(BatchKeys(fs, clocks, md5), n, b.objects.Keys)
  {
    if n > 0 {
      var m := n - 1;
      SaveAllFresh(b, fs, m, clocks, md5);
      SaveAllKeys(b, fs, m, clocks, md5);
      var p := SavePrefix(b, fs, m, clocks, md5);
      SaveWrites(p.bucket, fs[m], clocks(m), md5);
      var ks := BatchKeys(fs, clocks, md5);
      assert ks[m] == ObjectKey(fs[m], clocks(m), md5);
    }
  }

  /** save_articles counts the distinct keys that were not yet in the
      bucket, so duplicates within one batch are saved once. */
  lemma SaveAllCount(b: Bucket, fs: seq<Fields>, clocks: nat -> Clock, md5: string -> string)
    requires b.Valid()
    ensures SaveAll(b, fs, clocks, md5).count == |KeysOf(fs, clocks, md5) - b.objects.Keys|
  {
    SaveAllFresh(b, fs, |fs|, clocks, md5);
    FreshKeysCount(BatchKeys(fs, clocks, md5), |fs|, b.objects.Keys);
  }

  /** Each of `rs` is the corresponding one of `fs`, maybe stamped. */
  predicate AllStamped(rs: seq<Fields>, fs: seq<Fields>, clocks: nat -> Clock) {
    |rs| <= |fs| && forall i :: 0 <= i < |rs| ==> StampedOrSame(rs[i], fs[i], clocks(i).iso)
  }

  lemma AllStampedAppend(rs: seq<Fields>, fs: seq<Fields>, clocks: nat -> Clock, g: Fields)
    requires AllStamped(rs, fs, clocks) && |rs| < |fs| && StampedOrSame(g, fs[|rs|], clocks(|rs|).iso)
    ensures AllStamped(rs + [g], fs, clocks)
  {
    var next := rs + [g];
    forall i | 0 <= i < |next|
      ensures StampedOrSame(next[i], fs[i], clocks(i).iso)
    {
      if i < |rs| {
        assert next[i] == rs[i];
      } else {
        assert i == |rs|;
      }
    }
  }

  /** Each dict is left as it was or with a saved_at stamp added. */
  lemma {:induction false} SaveAllStamps(b: Bucket, fs: seq<Fields>, n: nat, clocks: nat -> Clock, md5: string -> string)
    requires b.Valid() && n <= |fs|
    ensures AllStamped(SavePrefix(b, fs, n, clocks, md5).fields, fs, clocks)
  {
    if n > 0 {
      var m := n - 1;
      SaveAllStamps(b, fs, m, clocks, md5);
      var p := SavePrefix(b, fs, m, clocks, md5);
      SaveStamp(p.bucket, fs[m], clocks(m), md5);
      AllStampedAppend(p.fields, fs, clocks, Save(p.bucket, fs[m], clocks(m), md5).fields);
    }
  }

  /** A save leaves the dict as it was or adds the saved_at stamp. */
  lemma SaveStamp(b: Bucket, fields: Fields, clock: Clock, md5: string -> string)
    requires b.Valid()
    ensures var r := Save(b, fields, clock, md5).fields;
      StampedOrSame(r, fields, clock.iso)
  {
  }

  /** Stamping dicts does not change their keys. */
  lemma KeysOfStamped(fs: seq<Fields>, gs: seq<Fields>, c1: nat -> Clock, c2: nat -> Clock, md5: string -> string)
    requires |fs| == |gs|
    requires forall i :: 0 <= i < |fs| ==> StampedOrSame(gs[i], fs[i], c1(i).iso)
    requires forall i :: 0 <= i < |fs| ==> c1(i) == c2(i) || KeyStable(fs[i])
    ensures KeysOf(gs, c2, md5) == KeysOf(fs, c1, md5)
  {
    forall i | 0 <= i < |fs|
      ensures ObjectKey(gs[i], c2(i), md5) == ObjectKey(fs[i], c1(i), md5)
    {
      if gs[i] == fs[i] {
        KeyDependsOnTitleAndTime(fs[i], fs[i], c2(i), c1(i), md5);
      } else {
        KeyIgnoresStamp(fs[i], c1(i).iso, c1(i), c2(i), md5);
      }
    }
    assert BatchKeys(gs, c2, md5) == BatchKeys(fs, c1, md5);
  }

  /** Saving the same batch again, as the dicts were left by the first save,
      saves nothing -- for articles whose keys do not depend on the day. */
  lemma SaveAllAgain(b: Bucket, fs: seq<Fields>, c1: nat -> Clock, c2: nat -> Clock, md5: string -> string)
    requires b.Valid()
    requires forall i :: 0 <= i < |fs| ==> c1(i) == c2(i) || KeyStable(fs[i])
    ensures var r := SaveAll(b, fs, c1, md5);
      SaveAll(r.bucket, r.fields, c2, md5).count == 0
  {
    var r := SaveAll(b, fs, c1, md5);
    SaveAllKeys(b, fs, |fs|, c1, md5);
    SaveAllStamps(b, fs, |fs|, c1, md5);
    KeysOfStamped(fs, r.fields, c1, c2, md5);
    SaveAllCount(r.bucket, r.fields, c2, md5);
    assert KeysOf(r.fields, c2, md5) - r.bucket.objects.Keys == {};
  }

  // ---------------------------------------------------------------------
  // Search
  // ---------------------------------------------------------------------

  /** The query and source filters of search_articles: a given query must
      occur, case-insensitively, in the title, summary or content; a given
      source in the source. */
  predicate Matches(a: Fields, query: Option<string>, source: Option<string>) {
    (Given(query) ==>
      var q := Lower(query.value);
      Contains(Lower(TextOr(a, "title", "")), q)
      || Contains(Lower(TextOr(a, "summary", "")), q)
      || Contains(Lower(TextOr(a, "content", "")), q))
    && (Given(source) ==> Contains(Lower(TextOr(a, "source", "")), Lower(source.value)))
  }

  /** The filter as a function, for handing to the generic search. */
  function Matcher(query: Option<string>, source: Option<string>): Fields -> bool {
    a => Matches(a, query, source)
  }

  /** Cutting one element off a longer prefix, stated generically so that
      the solver does not look inside the elements. */
  lemma PrefixOfPrefix<T>(s: seq<T>, i: nat)
    requires i < |s|
    ensures s[..i + 1][..i] == s[..i]
  {
  }

  /** The elements that `keep` accepts, in order. */
  function Filter<T>(s: seq<T>, keep: T -> bool): seq<T>
    decreases |s|
  {
    if |s| == 0 then []
    else
      var n := |s| - 1;
      Filter(s[..n], keep) + if keep(s[n]) then [s[n]] else []
  }

  function Max(a: int, b: int): int {
    if a < b then b else a
  }

  /** search_articles on a list: the first kept elements, at most `limit`
      of them -- but at least one, as the limit is checked only after an
      element is kept. */
  function SearchIn<T>(all: seq<T>, keep: T -> bool, limit: int): seq<T> {
    var m := Filter(all, keep);
    var cap := Max(limit, 1);
    if |m| <= cap then m else m[..cap]
  }

  lemma {:induction false} FilterSubsequence<T>(s: seq<T>, keep: T -> bool)
    ensures IsSubsequence(Filter(s, keep), s)
    ensures forall a :: a in Filter(s, keep) ==> keep(a)
    ensures forall a :: a in s && keep(a) ==> a in Filter(s, keep)
    decreases |s|
  {
    if |s| > 0 {
      var n := |s| - 1;
      FilterSubsequence(s[..n], keep);
      assert s == s[..n] + [s[n]];
      if !keep(s[n]) {
        assert Filter(s, keep) == Filter(s[..n], keep);
        SubsequenceDropLast(Filter(s, keep), s);
      } else {
        var f := Filter(s, keep);
        assert f[..|f| - 1] == Filter(s[..n], keep);
      }
    }
  }

  /** The search keeps the order, keeps only accepted elements, keeps every
      accepted one while no more than the limit are accepted, and returns
      at most `limit` elements when `limit` is at least 1. */
  lemma SearchInProperties<T>(all: seq<T>, keep: T -> bool, limit: int)
    ensures var r := SearchIn(all, keep, limit);
      && IsSubsequence(r, all)
      && (forall a :: a in r ==> keep(a))
      && (limit >= 1 ==> |r| <= limit)
      && (|Filter(all, keep)| <= Max(limit, 1) ==> forall a :: a in all && keep(a) ==> a in r)
  {
    var m := Filter(all, keep);
    FilterSubsequence(all, keep);
    if |m| > Max(limit, 1) {
      SubsequenceOfPrefix(m, all, Max(limit, 1));
      forall a | a in m[..Max(limit, 1)]
        ensures keep(a)
      {
        assert a in m;
      }
    }
  }

  /** A prefix of the input gives a prefix of the filtered list. */
  lemma {:induction false} FilterPrefix<T>(s: seq<T>, i: nat, keep: T -> bool)
    requires i <= |s|
    ensures Filter(s[..i], keep) <= Filter(s, keep)
    decreases |s| - i
  {
    if i < |s| {
      FilterPrefix(s, i + 1, keep);
      PrefixOfPrefix(s, i);
    } else {
      assert s[..i] == s;
    }
  }

  /** One more element of `s` examined by the filter. */
  lemma FilterStep<T>(s: seq<T>, i: nat, keep: T -> bool)
    requires i < |s|
    ensures Filter(s[..i + 1], keep) == Filter(s[..i], keep) + if keep(s[i]) then [s[i]] else []
  {
    PrefixOfPrefix(s, i);
  }

  /** A filtered prefix that has reached the cap is the whole search result. */
  lemma SearchStop<T>(all: seq<T>, i: nat, keep: T -> bool, limit: int)
    requires i <= |all| && |Filter(all[..i], keep)| == Max(limit, 1)
    ensures SearchIn(all, keep, limit) == Filter(all[..i], keep)
  {
    FilterPrefix(all, i, keep);
  }

  /** With every element examined and the cap never reached, the filter is the result. */
  lemma SearchDone<T>(all: seq<T>, keep: T -> bool, limit: int)
    requires |Filter(all, keep)| < Max(limit, 1)
    ensures SearchIn(all, keep, limit) == Filter(all, keep)
  {
  }

  // ---------------------------------------------------------------------
  // The store object
  // ---------------------------------------------------------------------

  /** The dicts held by `docs`, known one by one. */
  lemma FieldsOfIs(docs: seq<Document>, out: seq<Fields>)
    requires |out| == |docs| && forall j :: 0 <= j < |docs| ==> docs[j].fields == out[j]
    ensures FieldsOf(docs) == out
  {
  }

  /** The dicts currently held by `docs`. */
  function FieldsOf(docs: seq<Document>): (r: seq<Fields>)
    reads docs
    ensures |r| == |docs| && forall i :: 0 <= i < |docs| ==> r[i] == docs[i].fields
  {
    seq(|docs|, i reads docs requires 0 <= i < |docs| => docs[i].fields)
  }

  class ArticleStorage {
    const endpoint: string
    const accessKey: string
    const secretKey: string
    const bucketName: string
    /** The bucket as the client sees it. */
    var bucket: Bucket

    ghost predicate Valid()
      reads this
    {
      bucket.Valid()
    }

    /** A client on the named bucket; the credentials are non-empty (Open
        checks them).  init_bucket creates the bucket only when it is
        absent (`existing` is None); an existing bucket keeps its objects. */
    constructor(endpoint: string, accessKey: string, secretKey: string, bucketName: string,
                existing: Option<Bucket>)
      requires accessKey != "" && secretKey != ""
      requires existing.Some? ==> existing.value.Valid()
      ensures Valid() && bucket == existing.GetOr(EmptyBucket)
      ensures this.endpoint == endpoint && this.accessKey == accessKey
      ensures this.secretKey == secretKey && this.bucketName == bucketName
    {
      this.endpoint := endpoint;
      this.accessKey := accessKey;
      this.secretKey := secretKey;
      this.bucketName := bucketName;
      bucket := if existing.Some? then existing.value else EmptyBucket;
    }

    /** _article_exists */
    method ArticleExists(key: string) returns (found: bool)
      ensures found <==> key in bucket.objects
    {
      found := key in bucket.objects;
    }

    /** save_article: writes the stamped dict under its key unless the key
        is present; the stamp lands in the caller's dict. */
    method SaveArticle(doc: Document, clock: Clock, md5: string -> string) returns (saved: bool)
      requires Valid()
      modifies this, doc
      ensures Valid()
      ensures var r := Save(old(bucket), old(doc.fields), clock, md5);
        bucket == r.bucket && doc.fields == r.fields && saved == r.saved
    {
      var key := ObjectKey(doc.fields, clock, md5);
      if key.None? {
        return false;
      }
      var present := ArticleExists(key.value);
      if present {
        return false;
      }
      doc.fields := Stamp(doc.fields, clock.iso);
      bucket := bucket.Put(key.value, doc.fields);
      return true;
    }

    /** save_articles (on the adapter): save each dict in order and count
        the ones saved. */
    method SaveArticles(docs: seq<Document>, clocks: nat -> Clock, md5: string -> string) returns (count: nat)
      requires Valid()
      requires forall i, j :: 0 <= i < j < |docs| ==> docs[i] != docs[j]
      modifies this, docs
      ensures Valid()
      ensures var r := SaveAll(old(bucket), old(FieldsOf(docs)), clocks, md5);
        bucket == r.bucket && count == r.count && FieldsOf(docs) == r.fields
    {
      ghost var b0 := bucket;
      ghost var fs := FieldsOf(docs);
      ghost var out: seq<Fields> := [];
      count := 0;
      var i := 0;
      while i < |docs|
        invariant 0 <= i <= |docs| && Valid()
        invariant SaveLoop(b0, fs, docs, i, clocks, md5, bucket, out, count)
      {
        count := SaveNext(b0, fs, docs, i, clocks, md5, out, count);
        out := out + [docs[i].fields];
        i := i + 1;
      }
      FieldsOfIs(docs, out);
    }

    /** The state of the save_articles loop after `i` documents. */
    ghost predicate SaveLoop(b0: Bucket, fs: seq<Fields>, docs: seq<Document>, i: nat, clocks: nat -> Clock,
                             md5: string -> string, bucket: Bucket, out: seq<Fields>, count: nat)
      reads docs
    {
      && b0.Valid() && |fs| == |docs| && i <= |docs|
      && SavePrefix(b0, fs, i, clocks, md5) == SavedAll(bucket, out, count)
      && |out| == i && (forall j :: 0 <= j < i ==> docs[j].fields == out[j])
      && (forall j :: i <= j < |docs| ==> docs[j].fields == fs[j])
    }

    /** One turn of the save_articles loop. */
    method SaveNext(ghost b0: Bucket, ghost fs: seq<Fields>, docs: seq<Document>, i: nat, clocks: nat -> Clock,
                    md5: string -> string, ghost out: seq<Fields>, count: nat) returns (next: nat)
      requires Valid() && i < |docs|
      requires forall i, j :: 0 <= i < j < |docs| ==> docs[i] != docs[j]
      requires SaveLoop(b0, fs, docs, i, clocks, md5, bucket, out, count)
      modifies this, docs[i]
      ensures Valid()
      ensures SaveLoop(b0, fs, docs, i + 1, clocks, md5, bucket, out + [docs[i].fields], next)
    {
      ghost var step := Save(bucket, fs[i], clocks(i), md5);
      SaveAllNext(b0, fs, i, clocks, md5, bucket, out, count, step);
      var saved := SaveArticle(docs[i], clocks(i), md5);
      next := if saved then count + 1 else count;
    }

    /** get_articles_by_date: list the chosen prefixes in turn, reading
        objects until `limit` are read, then sort newest first. */
    method GetArticlesByDate(start: Option<string>, end: Option<string>, limit: Option<int>)
      returns (articles: seq<Fields>)
      requires Valid()
      ensures articles == ArticlesByDate(bucket, start, end, limit)
    {
      var n := LimitValue(limit);
      var prefixes: seq<string>;
      if Given(start) && Given(end) {
        var range := GenerateDateRange(start.value, end.value);
        if range.None? {
          return [];
        }
        prefixes := range.value;
      } else if Given(start) {
        prefixes := ["articles/" + start.value + "/"];
      } else {
        prefixes := ["articles/"];
      }
      var found := ReadPrefixes(prefixes, n);
      ReadAll(bucket, start, end, limit, prefixes, Take(Gathered(bucket.keys, prefixes), n), found);
      var sorted := SortDescending(found, TimeKey);
      articles := if n != 0 then Slice(sorted, n) else sorted;
    }

    /** The loop of get_articles_by_date: list each prefix in turn and fetch
        the listed objects until `n` are fetched (a non-zero `n` is the
        limit). */
    method ReadPrefixes(prefixes: seq<string>, n: int) returns (found: seq<Fields>)
      requires Valid()
      ensures ReadState(bucket, Gathered(bucket.keys, prefixes), n, Take(Gathered(bucket.keys, prefixes), n), found)
    {
      var keys := bucket.keys;
      ghost var read: seq<string> := [];
      found := [];
      ReadStart(bucket, n);
      var p := 0;
      while p < |prefixes|
        invariant p <= |prefixes|
        invariant ReadState(bucket, Gathered(keys, prefixes[..p]), n, read, found)
      {
        var listed := Listing(keys, prefixes[p]);
        ghost var done := Gathered(keys, prefixes[..p]);
        GatheredNext(keys, prefixes, p);
        SliceFacts(done, listed, 0);
        var j := 0;
        while j < |listed|
          invariant j <= |listed|
          invariant ReadState(bucket, done + listed[..j], n, read, found)
        {
          if n != 0 && |found| >= n {
            break;
          }
          ListedStored(bucket, prefixes[p], j);
          ReadNext(bucket, done + listed[..j], listed[j], n, read, found);
          SliceFacts(done, listed, j);
          found := found + [bucket.objects[listed[j]]];
          read := read + [listed[j]];
          j := j + 1;
        }
        SliceFacts(done, listed, j);
        if j < |listed| {
          ReadStop(bucket, done + listed[..j], listed[j..], n, read, found);
        }
        if n != 0 && |found| >= n {
          ReadStopAll(bucket, prefixes, p + 1, n, read, found);
          break;
        }
        p := p + 1;
      }
      if p == |prefixes| {
        SliceFacts([], prefixes, p);
      }
    }

    /** search_articles: filter the articles of the date range, stopping
        once `limit` are kept. */
    method SearchArticles(query: Option<string>, source: Option<string>, start: Option<string>,
                          end: Option<string>, limit: int)
      returns (filtered: seq<Fields>)
      requires Valid()
      ensures filtered == SearchIn(ArticlesByDate(bucket, start, end, None), Matcher(query, source), limit)
    {
      var all := GetArticlesByDate(start, end, None);
      ghost var keep := Matcher(query, source);
      filtered := [];
      var i := 0;
      while i < |all|
        invariant i <= |all|
        invariant filtered == Filter(all[..i], keep)
        invariant |filtered| < Max(limit, 1)
      {
        FilterStep(all, i, keep);
        if !Matches(all[i], query, source) {
          i := i + 1;
          continue;
        }
        filtered := filtered + [all[i]];
        i := i + 1;
        if |filtered| >= limit {
          SearchStop(all, i, keep, limit);
          return;
        }
      }
      assert all[..i] == all;
      SearchDone(all, keep, limit);
    }
  }

  // ---------------------------------------------------------------------
  // Date prefixes
  // ---------------------------------------------------------------------

  /** Every day from `s` to `e` lies in years 1..9999. */
  lemma ShiftsInRange(s: Date, e: Date)
    requires InRange(s) && InRange(e) && DayNumber(s) <= DayNumber(e)
    ensures forall i :: 0 <= i <= DayNumber(e) - DayNumber(s) ==> InRange(ShiftDays(s, i))
  {
    forall i | 0 <= i <= DayNumber(e) - DayNumber(s)
      ensures InRange(ShiftDays(s, i))
    {
      BetweenInRange(s, ShiftDays(s, i), e);
    }
  }

  /** The prefixes for the days from `s` to `e` inclusive. */
  function DayPrefixes(s: Date, e: Date): (r: seq<string>)
    requires InRange(s) && InRange(e) && DayNumber(s) <= DayNumber(e)
    ensures |r| == DayNumber(e) - DayNumber(s) + 1
    ensures forall i :: 0 <= i < |r| ==> InRange(ShiftDays(s, i)) && r[i] == DatePrefix(ShiftDays(s, i))
  {
    ShiftsInRange(s, e);
    seq(DayNumber(e) - DayNumber(s) + 1,
        i requires 0 <= i <= DayNumber(e) - DayNumber(s) =>
          BetweenInRange(s, ShiftDays(s, i), e);
          DatePrefix(ShiftDays(s, i)))
  }

  /** _generate_date_range on values.  None where it raises: a date that
      does not parse, or a range reaching 9999-12-31, whose next day
      overflows. */
  function DateRange(start: string, end: string): Option<seq<string>> {
    var s := ParseDate(start);
    var e := ParseDate(end);
    if s.None? || e.None? then None
    else if DayNumber(e.value) < DayNumber(s.value) then Some([])
    else if e.value == MaxDate then None
    else Some(DayPrefixes(s.value, e.value))
  }

  /** Every prefix of the range is the prefix of a day from start to end. */
  lemma DayPrefixesOnly(s: Date, e: Date, d: Date)
    requires InRange(s) && InRange(e) && DayNumber(s) <= DayNumber(e) && InRange(d)
    requires DatePrefix(d) in DayPrefixes(s, e)
    ensures DayNumber(s) <= DayNumber(d) <= DayNumber(e)
  {
    var r := DayPrefixes(s, e);
    var i :| 0 <= i < |r| && r[i] == DatePrefix(d);
    var di := ShiftDays(s, i);
    BetweenInRange(s, di, e);
    assert FormatDate(d) == DatePrefix(d)[9..|DatePrefix(d)| - 1];
    assert FormatDate(di) == r[i][9..|r[i]| - 1];
    FormatDateInjective(d, di);
  }

  /** Every day from start to end has its prefix in the range. */
  lemma DayPrefixesAll(s: Date, e: Date, d: Date)
    requires InRange(s) && InRange(e) && InRange(d)
    requires DayNumber(s) <= DayNumber(d) <= DayNumber(e)
    ensures DatePrefix(d) in DayPrefixes(s, e)
  {
    var i := DayNumber(d) - DayNumber(s);
    DayNumberMonotone(d, ShiftDays(s, i));
    assert DayPrefixes(s, e)[i] == DatePrefix(d);
  }

  /** The range holds the prefix of a day exactly when the day lies between
      start and end, both included. */
  lemma DateRangeDays(start: string, end: string, d: Date)
    requires DateRange(start, end).Some? && InRange(d)
    ensures var s := ParseDate(start).value;
      var e := ParseDate(end).value;
      DatePrefix(d) in DateRange(start, end).value <==> DayNumber(s) <= DayNumber(d) <= DayNumber(e)
  {
    var s := ParseDate(start).value;
    var e := ParseDate(end).value;
    if DayNumber(s) <= DayNumber(e) {
      if DatePrefix(d) in DateRange(start, end).value {
        DayPrefixesOnly(s, e, d);
      }
      if DayNumber(s) <= DayNumber(d) <= DayNumber(e) {
        DayPrefixesAll(s, e, d);
      }
    }
  }

  /** The range is empty exactly when end comes before start, and it fails
      exactly on an unparsable date or an end of 9999-12-31. */
  lemma DateRangeEdges(start: string, end: string)
    ensures var s := ParseDate(start);
      var e := ParseDate(end);
      && (DateRange(start, end) == Some([]) <==> s.Some? && e.Some? && DateBefore(e.value, s.value))
      && (DateRange(start, end).None? <==> s.None? || e.None? || (!DateBefore(e.value, s.value) && e.value == MaxDate))
  {
    var s := ParseDate(start);
    var e := ParseDate(end);
    if s.Some? && e.Some? {
      DayNumberMonotone(e.value, s.value);
    }
  }

  lemma DateRangeOf(start: string, end: string, first: Date, last: Date)
    requires ParseDate(start) == Some(first) && ParseDate(end) == Some(last)
    ensures DateRange(start, end)
      == if DayNumber(last) < DayNumber(first) then Some([])
         else if last == MaxDate then None
         else Some(DayPrefixes(first, last))
  {
  }

  /** The prefixes of the first |days| days from `first`. */
  predicate DaysFrom(first: Date, days: seq<string>) {
    ValidDate(first)
    && forall i :: 0 <= i < |days| ==>
      InRange(ShiftDays(first, i)) && days[i] == DatePrefix(ShiftDays(first, i))
  }

  lemma AppendDay(first: Date, days: seq<string>, current: Date)
    requires DaysFrom(first, days) && InRange(current) && current == ShiftDays(first, |days|)
    ensures DaysFrom(first, days + [DatePrefix(current)])
  {
    var next := days + [DatePrefix(current)];
    forall i | 0 <= i < |next|
      ensures InRange(ShiftDays(first, i)) && next[i] == DatePrefix(ShiftDays(first, i))
    {
      if i < |days| {
        assert next[i] == days[i];
      } else {
        assert i == |days|;
        assert next[i] == DatePrefix(current);
      }
    }
  }

  /** Reaching 9999-12-31 without passing the end means the end is that day. */
  lemma LastDayReached(first: Date, last: Date)
    requires InRange(first) && InRange(last)
    requires DayNumber(first) <= DayNumber(MaxDate) <= DayNumber(last)
    ensures last == MaxDate && DayNumber(first) <= DayNumber(last)
  {
    DayNumberMonotone(MaxDate, last);
  }

  /** One turn of the walk keeps the loop's facts. */
  lemma NextDayStep(first: Date, last: Date, current: Date, n: nat)
    requires InRange(first) && InRange(last) && InRange(current) && current != MaxDate
    requires current == ShiftDays(first, n) && DayNumber(current) <= DayNumber(last)
    ensures InRange(NextDay(current)) && NextDay(current) == ShiftDays(first, n + 1)
    ensures DayNumber(NextDay(current)) <= DayNumber(last) + 1
    ensures last == MaxDate ==> DayNumber(NextDay(current)) <= DayNumber(last)
    ensures DateBefore(last, NextDay(current)) <==> DayNumber(last) < DayNumber(NextDay(current))
  {
    NextDayInRange(current);
    DayNumberMonotone(current, last);
    DayNumberMonotone(last, NextDay(current));
  }

  /** The walk that has covered every day up to the end holds the range. */
  lemma DaysFromAll(first: Date, last: Date, days: seq<string>)
    requires InRange(first) && InRange(last) && DayNumber(first) <= DayNumber(last)
    requires DaysFrom(first, days) && |days| == DayNumber(last) - DayNumber(first) + 1
    ensures days == DayPrefixes(first, last)
  {
  }

  /** The day-by-day walk of _generate_date_range from `first` to `last`. */
  method WalkDays(first: Date, last: Date) returns (r: Option<seq<string>>)
    requires InRange(first) && InRange(last)
    ensures r == if DayNumber(last) < DayNumber(first) then Some([])
                 else if last == MaxDate then None
                 else Some(DayPrefixes(first, last))
  {
    var prefixes: seq<string> := [];
    var current := first;
    ghost var lo, hi := DayNumber(first), DayNumber(last);
    DayNumberMonotone(last, current);
    while !DateBefore(last, current)
      invariant InRange(current) && current == ShiftDays(first, |prefixes|)
      invariant lo <= hi ==> lo + |prefixes| <= hi + 1
      invariant last == MaxDate ==> lo + |prefixes| <= hi
      invariant hi < lo ==> prefixes == []
      invariant DaysFrom(first, prefixes)
      invariant DateBefore(last, current) <==> hi < lo + |prefixes|
      decreases hi - lo - |prefixes|
    {
      ghost var before := prefixes;
      prefixes := prefixes + [DatePrefix(current)];
      AppendDay(first, before, current);
      if current == MaxDate {
        LastDayReached(first, last);
        return None;
      }
      NextDayStep(first, last, current, |before|);
      current := NextDay(current);
    }
    if DayNumber(first) <= DayNumber(last) {
      DaysFromAll(first, last, prefixes);
    }
    return Some(prefixes);
  }

  /** _generate_date_range: parse both dates, then walk from start to end. */
  method GenerateDateRange(start: string, end: string) returns (r: Option<seq<string>>)
    ensures r == DateRange(start, end)
  {
    var s := ParseDate(start);
    var e := ParseDate(end);
    if s.None? || e.None? {
      return None;
    }
    r := WalkDays(s.value, e.value);
    DateRangeOf(start, end, s.value, e.value);
  }

  // ---------------------------------------------------------------------
  // Listing by date
  // ---------------------------------------------------------------------

  /** A non-empty string argument (Python truthiness). */
  predicate Given(s: Option<string>) {
    s.Some? && s.value != ""
  }

  /** list_objects(prefix=p, recursive=True): the keys under p, in listing
      order. */
  function Listing(keys: seq<string>, p: string): seq<string>
    decreases |keys|
  {
    if |keys| == 0 then []
    else
      var n := |keys| - 1;
      Listing(keys[..n], p) + if p <= keys[n] then [keys[n]] else []
  }

  lemma {:induction false} ListingMembers(keys: seq<string>, p: string)
    ensures forall k :: k in Listing(keys, p) <==> k in keys && p <= k
    decreases |keys|
  {
    if |keys| > 0 {
      var n := |keys| - 1;
      ListingMembers(keys[..n], p);
      assert keys == keys[..n] + [keys[n]];
    }
  }

  /** The listings of the prefixes one after the other. */
  function Gathered(keys: seq<string>, prefixes: seq<string>): seq<string>
    decreases |prefixes|
  {
    if |prefixes| == 0 then []
    else
      var n := |prefixes| - 1;
      Gathered(keys, prefixes[..n]) + Listing(keys, prefixes[n])
  }

  lemma {:induction false} GatheredInKeys(keys: seq<string>, prefixes: seq<string>)
    ensures forall k :: k in Gathered(keys, prefixes) ==> k in keys
    decreases |prefixes|
  {
    if |prefixes| > 0 {
      var n := |prefixes| - 1;
      GatheredInKeys(keys, prefixes[..n]);
      ListingMembers(keys, prefixes[n]);
    }
  }

  /** What the listing loop keeps of `s`: a limit of 0 (or None) keeps all,
      a positive limit the first `limit`, a negative one nothing. */
  function Take<T>(s: seq<T>, limit: int): (r: seq<T>)
    ensures r <= s
    ensures limit == 0 ==> r == s
    ensures limit < 0 ==> r == []
    ensures limit > 0 ==> |r| == if |s| < limit then |s| else limit
  {
    if limit == 0 then s
    else if limit < 0 then []
    else if |s| <= limit then s
    else s[..limit]
  }

  /** Once the limit is reached, later objects are not read. */
  lemma TakeStops<T>(s: seq<T>, t: seq<T>, limit: int)
    requires limit != 0 && |Take(s, limit)| >= limit
    ensures Take(s + t, limit) == Take(s, limit)
  {
    if limit > 0 {
      assert (s + t)[..limit] == s[..limit];
    }
  }

  /** Below the limit, the next object is read. */
  lemma TakeGrows<T>(s: seq<T>, x: T, limit: int)
    requires !(limit != 0 && |Take(s, limit)| >= limit)
    ensures Take(s + [x], limit) == Take(s, limit) + [x]
  {
  }

  /** Once the limit is reached, the remaining prefixes add nothing. */
  lemma {:induction false} TakeGatheredStops(keys: seq<string>, prefixes: seq<string>, q: nat, limit: int)
    requires q <= |prefixes|
    requires limit != 0 && |Take(Gathered(keys, prefixes[..q]), limit)| >= limit
    ensures Take(Gathered(keys, prefixes), limit) == Take(Gathered(keys, prefixes[..q]), limit)
    decreases |prefixes| - q
  {
    if q < |prefixes| {
      var next := prefixes[..q + 1];
      assert next[..q] == prefixes[..q];
      assert Gathered(keys, next) == Gathered(keys, prefixes[..q]) + Listing(keys, prefixes[q]);
      TakeStops(Gathered(keys, prefixes[..q]), Listing(keys, prefixes[q]), limit);
      assert Take(Gathered(keys, next), limit) == Take(Gathered(keys, prefixes[..q]), limit);
      TakeGatheredStops(keys, prefixes, q + 1, limit);
    } else {
      assert prefixes[..q] == prefixes;
    }
  }

  /** The stored documents under the given keys, in order. */
  function Docs(b: Bucket, keys: seq<string>): (r: seq<Fields>)
    requires forall k :: k in keys ==> k in b.objects
    ensures |r| == |keys| && forall i :: 0 <= i < |keys| ==> r[i] == b.objects[keys[i]]
  {
    seq(|keys|, i requires 0 <= i < |keys| => b.objects[keys[i]])
  }

  /** Slicing facts, stated generically so that the solver does not look
      inside the elements. */
  lemma SliceFacts<T>(a: seq<T>, b: seq<T>, j: nat)
    requires j <= |b|
    ensures a + b[..0] == a
    ensures j < |b| ==> a + b[..j + 1] == a + b[..j] + [b[j]]
    ensures a + b[..j] + b[j..] == a + b
    ensures j == |b| ==> b[..j] == b
  {
    if j < |b| {
      assert b[..j + 1] == b[..j] + [b[j]];
    }
    assert b[..j] + b[j..] == b;
  }

  /** The listing loop's state: of the keys visited (`seen`), `read` are the
      ones whose objects were fetched, and `found` holds those objects. */
  ghost predicate ReadState(b: Bucket, seen: seq<string>, n: int, read: seq<string>, found: seq<Fields>) {
    read == Take(seen, n) && (forall k :: k in read ==> k in b.objects) && found == Docs(b, read)
  }

  lemma ReadStart(b: Bucket, n: int)
    ensures ReadState(b, [], n, [], [])
  {
  }

  /** Below the limit the next listed object is fetched. */
  lemma ReadNext(b: Bucket, seen: seq<string>, x: string, n: int, read: seq<string>, found: seq<Fields>)
    requires ReadState(b, seen, n, read, found) && x in b.objects
    requires !(n != 0 && |found| >= n)
    ensures ReadState(b, seen + [x], n, read + [x], found + [b.objects[x]])
  {
    TakeGrows(seen, x, n);
  }

  /** At the limit nothing more is fetched. */
  lemma ReadStop(b: Bucket, seen: seq<string>, rest: seq<string>, n: int, read: seq<string>, found: seq<Fields>)
    requires ReadState(b, seen, n, read, found) && n != 0 && |found| >= n
    ensures ReadState(b, seen + rest, n, read, found)
  {
    TakeStops(seen, rest, n);
  }

  /** At the limit the remaining prefixes are not listed. */
  lemma ReadStopAll(b: Bucket, prefixes: seq<string>, q: nat, n: int, read: seq<string>, found: seq<Fields>)
    requires q <= |prefixes|
    requires ReadState(b, Gathered(b.keys, prefixes[..q]), n, read, found) && n != 0 && |found| >= n
    ensures ReadState(b, Gathered(b.keys, prefixes), n, read, found)
  {
    TakeGatheredStops(b.keys, prefixes, q, n);
  }

  lemma GatheredNext(keys: seq<string>, prefixes: seq<string>, p: nat)
    requires p < |prefixes|
    ensures Gathered(keys, prefixes[..p + 1]) == Gathered(keys, prefixes[..p]) + Listing(keys, prefixes[p])
  {
    assert prefixes[..p + 1][..p] == prefixes[..p];
  }

  /** Every listed key names a stored object. */
  lemma ListedStored(b: Bucket, prefix: string, j: nat)
    requires b.Valid() && j < |Listing(b.keys, prefix)|
    ensures Listing(b.keys, prefix)[j] in b.objects
  {
    ListingMembers(b.keys, prefix);
  }

  /** The listing loop ends with ArticlesByDate's reads. */
  lemma ReadAll(b: Bucket, start: Option<string>, end: Option<string>, limit: Option<int>,
                prefixes: seq<string>, read: seq<string>, found: seq<Fields>)
    requires b.Valid() && ChosenPrefixes(start, end) == Some(prefixes)
    requires ReadState(b, Gathered(b.keys, prefixes), LimitValue(limit), read, found)
    ensures var n := LimitValue(limit);
      var sorted := SortDescending(found, TimeKey);
      ArticlesByDate(b, start, end, limit) == if n != 0 then Slice(sorted, n) else sorted
  {
  }

  /** The sort key: article.get('publish_time', ''). */
  function TimeKey(d: Fields): string {
    TextOr(d, "publish_time", "")
  }

  /** Descending by key: no element has a smaller key than one after it. */
  predicate Descending<T>(s: seq<T>, key: T -> string) {
    forall i, j :: 0 <= i < j < |s| ==> !Less(key(s[i]), key(s[j]))
  }

  /** Insert `x` before the first element whose key is not greater. */
  function InsertDescending<T>(x: T, t: seq<T>, key: T -> string): seq<T>
    decreases |t|
  {
    if |t| == 0 then [x]
    else if !Less(key(x), key(t[0])) then [x] + t
    else [t[0]] + InsertDescending(x, t[1..], key)
  }

  /** list.sort(key=key, reverse=True), by insertion. */
  function SortDescending<T>(s: seq<T>, key: T -> string): seq<T>
    decreases |s|
  {
    if |s| == 0 then [] else InsertDescending(s[0], SortDescending(s[1..], key), key)
  }

  lemma {:induction false} InsertDescendingPerm<T>(x: T, t: seq<T>, key: T -> string)
    ensures multiset(InsertDescending(x, t, key)) == multiset(t) + multiset{x}
    decreases |t|
  {
    if |t| > 0 {
      if Less(key(x), key(t[0])) {
        InsertDescendingPerm(x, t[1..], key);
        assert t == [t[0]] + t[1..];
      }
    }
  }

  lemma {:induction false} InsertDescendingSorted<T>(x: T, t: seq<T>, key: T -> string)
    requires Descending(t, key)
    ensures Descending(InsertDescending(x, t, key), key)
    decreases |t|
  {
    if |t| > 0 {
      if !Less(key(x), key(t[0])) {
        forall j | 0 < j < |t|
          ensures !Less(key(x), key(t[j]))
        {
          NotLessTransitive(key(x), key(t[0]), key(t[j]));
        }
      } else {
        var rest := InsertDescending(x, t[1..], key);
        InsertDescendingSorted(x, t[1..], key);
        InsertDescendingPerm(x, t[1..], key);
        LessTotal(key(x), key(t[0]));
        forall i | 0 <= i < |rest|
          ensures !Less(key(t[0]), key(rest[i]))
        {
          var y := rest[i];
          assert y in multiset(rest);
          if y != x {
            assert y in multiset(t[1..]);
            var j :| 0 <= j < |t[1..]| && t[1..][j] == y;
            assert t[j + 1] == y;
          }
        }
      }
    }
  }

  /** The sort orders by descending key and keeps every element. */
  lemma {:induction false} SortDescendingSorted<T>(s: seq<T>, key: T -> string)
    ensures Descending(SortDescending(s, key), key)
    ensures multiset(SortDescending(s, key)) == multiset(s)
    decreases |s|
  {
    if |s| > 0 {
      SortDescendingSorted(s[1..], key);
      InsertDescendingSorted(s[0], SortDescending(s[1..], key), key);
      InsertDescendingPerm(s[0], SortDescending(s[1..], key), key);
      assert s == [s[0]] + s[1..];
    }
  }

  /** The elements with key `k`, in order. */
  function WithKey<T>(s: seq<T>, key: T -> string, k: string): seq<T>
    decreases |s|
  {
    if |s| == 0 then []
    else (if key(s[0]) == k then [s[0]] else []) + WithKey(s[1..], key, k)
  }

  lemma {:induction false} InsertDescendingStable<T>(x: T, t: seq<T>, key: T -> string, k: string)
    ensures WithKey(InsertDescending(x, t, key), key, k)
      == (if key(x) == k then [x] else []) + WithKey(t, key, k)
    decreases |t|
  {
    if |t| > 0 && Less(key(x), key(t[0])) {
      var rest := InsertDescending(x, t[1..], key);
      InsertDescendingStable(x, t[1..], key, k);
      LessIrreflexive(key(x));
      assert ([t[0]] + rest)[1..] == rest;
    } else if |t| > 0 {
      assert ([x] + t)[1..] == t;
    }
  }

  /** The sort is stable: elements with equal keys keep their order. */
  lemma {:induction false} SortDescendingStable<T>(s: seq<T>, key: T -> string, k: string)
    ensures WithKey(SortDescending(s, key), key, k) == WithKey(s, key, k)
    decreases |s|
  {
    if |s| > 0 {
      SortDescendingStable(s[1..], key, k);
      InsertDescendingStable(s[0], SortDescending(s[1..], key), key, k);
    }
  }

  /** articles[:limit] for a non-zero limit. */
  function Slice<T>(s: seq<T>, limit: int): seq<T> {
    if limit >= 0 then (if |s| <= limit then s else s[..limit])
    else if |s| + limit <= 0 then []
    else s[..|s| + limit]
  }

  /** The prefixes get_articles_by_date lists: the day range for two dates,
      one day for a start date alone, every article otherwise.  None where
      the range raises. */
  function ChosenPrefixes(start: Option<string>, end: Option<string>): Option<seq<string>> {
    if Given(start) && Given(end) then DateRange(start.value, end.value)
    else if Given(start) then Some(["articles/" + start.value + "/"])
    else Some(["articles/"])
  }

  /** The limit as the loop tests it: None reads as 0, "no limit". */
  function LimitValue(limit: Option<int>): int {
    if limit.Some? then limit.value else 0
  }

  /** The keys whose documents get_articles_by_date reads. */
  function ReadKeys(b: Bucket, start: Option<string>, end: Option<string>, limit: Option<int>): seq<string> {
    match ChosenPrefixes(start, end)
    case None => []
    case Some(ps) => Take(Gathered(b.keys, ps), LimitValue(limit))
  }

  /** get_articles_by_date on values; an exception yields []. */
  function ArticlesByDate(b: Bucket, start: Option<string>, end: Option<string>, limit: Option<int>): seq<Fields>
    requires b.Valid()
  {
    var keys := ReadKeys(b, start, end, limit);
    var n := LimitValue(limit);
    GatheredInKeys(b.keys, if ChosenPrefixes(start, end).Some? then ChosenPrefixes(start, end).value else []);
    var sorted := SortDescending(Docs(b, keys), TimeKey);
    if n != 0 then Slice(sorted, n) else sorted
  }

  /** The result is the documents read (at most `limit` of them, in listing
      order), rearranged newest first. */
  lemma ArticlesByDateSorted(b: Bucket, start: Option<string>, end: Option<string>, limit: Option<int>)
    requires b.Valid()
    ensures var r := ArticlesByDate(b, start, end, limit);
      var keys := ReadKeys(b, start, end, limit);
      && (forall k :: k in keys ==> k in b.objects)
      && Descending(r, TimeKey) && multiset(r) == multiset(Docs(b, keys))
      && (LimitValue(limit) > 0 ==> |r| <= LimitValue(limit))
  {
    var keys := ReadKeys(b, start, end, limit);
    GatheredInKeys(b.keys, if ChosenPrefixes(start, end).Some? then ChosenPrefixes(start, end).value else []);
    SortDescendingSorted(Docs(b, keys), TimeKey);
    var n := LimitValue(limit);
    if n < 0 {
      assert keys == [];
    }
  }

  /** An article saved with a publish time on day `day` is found when
      listing that day. */
  lemma SavedArticleFound(b: Bucket, fields: Fields, clock: Clock, md5: string -> string, day: Date)
    requires b.Valid() && InRange(day) && day.year >= 1000
    requires "publish_time" in fields && fields["publish_time"].Str?
    requires FormatDate(day) <= fields["publish_time"].s
    requires Save(b, fields, clock, md5).saved
    ensures var r := Save(b, fields, clock, md5);
      r.fields in ArticlesByDate(r.bucket, Some(FormatDate(day)), None, None)
  {
    var r := Save(b, fields, clock, md5);
    KeyUnderDay(fields, day, clock, md5);
    SaveIfAbsent(b, fields, clock, md5);
    var key := ObjectKey(fields, clock, md5).value;
    var listed := Listing(r.bucket.keys, DatePrefix(day));
    ListingMembers(r.bucket.keys, DatePrefix(day));
    assert Gathered(r.bucket.keys, [DatePrefix(day)]) == listed;
    assert ReadKeys(r.bucket, Some(FormatDate(day)), None, None) == listed;
    var i :| 0 <= i < |listed| && listed[i] == key;
    ArticlesByDateSorted(r.bucket, Some(FormatDate(day)), None, None);
    assert r.fields in multiset(Docs(r.bucket, listed));
  }

  /** `arg or os.getenv(name, default)`: a missing argument is "". */
  function Setting(arg: string, env: map<string, string>, name: string, default: string): string {
    if arg != "" then arg else if name in env then env[name] else default
  }

  /** MinIOArticleStorage(...): each setting falls back to its environment
      variable; ValueError when either resolved key is empty; otherwise a
      store on the named bucket, which is kept when it already exists. */
  method Open(endpoint: string, accessKey: string, secretKey: string, bucketName: string,
              env: map<string, string>, existing: Option<Bucket>)
    returns (r: Result<ArticleStorage, string>)
    requires existing.Some? ==> existing.value.Valid()
    ensures var access := Setting(accessKey, env, "MINIO_ACCESS_KEY", "");
      var secret := Setting(secretKey, env, "MINIO_SECRET_KEY", "");
      && (r.Err? <==> access == "" || secret == "")
      && (r.Ok? ==> fresh(r.value) && r.value.Valid() && r.value.bucket == existing.GetOr(EmptyBucket)
                    && r.value.accessKey == access && r.value.secretKey == secret
                    && r.value.endpoint == Setting(endpoint, env, "MINIO_ENDPOINT", "localhost:9000")
                    && r.value.bucketName == Setting(bucketName, env, "MINIO_BUCKET", "wechat-articles"))
  {
    var access := Setting(accessKey, env, "MINIO_ACCESS_KEY", "");
    var secret := Setting(secretKey, env, "MINIO_SECRET_KEY", "");
    if access == "" || secret == "" {
      return Err("MinIO access_key and secret_key must be provided");
    }
    var store := new ArticleStorage(Setting(endpoint, env, "MINIO_ENDPOINT", "localhost:9000"),
                                    access, secret,
                                    Setting(bucketName, env, "MINIO_BUCKET", "wechat-articles"),
                                    existing);
    return Ok(store);
  }
}
