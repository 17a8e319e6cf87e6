/** String-keyed maps that remember insertion order.

    The compiler builds its `properties` and `definitions` maps as plain
    JavaScript objects, assigning `acc[name] = value` once per entry. Such an
    assignment replaces the value of a key that is already present, keeping
    the key's position, and otherwise appends the key at the end. `Put` is
    that assignment on an association list; `PutAll` is a left fold of it. */
module OrderedMaps {
  import opened Options

  datatype Entry<V> = Entry(key: string, value: V)

  /** The keys of `m`, in order. */
  function Keys<V>(m: seq<Entry<V>>): (ks: seq<string>)
    ensures |ks| == |m|
  {
    if m == [] then [] else [m[0].key] + Keys(m[1..])
  }

  lemma {:induction false} KeysAt<V>(m: seq<Entry<V>>, i: nat)
    requires i < |m|
    ensures Keys(m)[i] == m[i].key
  {
    if i > 0 {
      KeysAt(m[1..], i - 1);
    }
  }

  /** No key occurs twice, as in a JavaScript object. */
  ghost predicate UniqueKeys<V>(m: seq<Entry<V>>)
  {
    forall i, j :: 0 <= i < j < |m| ==> m[i].key != m[j].key
  }

  /** Property lookup `m[k]`; `None` plays the part of `undefined`. */
  function Get<V>(m: seq<Entry<V>>, k: string): (r: Option<V>)
    ensures r.Some? <==> k in Keys(m)
    ensures r.Some? ==> Entry(k, r.value) in m
  {
    if m == [] then None
    else if m[0].key == k then Some(m[0].value)
    else Get(m[1..], k)
  }

  /** Property assignment `m[k] = v`. */
  function Put<V>(m: seq<Entry<V>>, k: string, v: V): (r: seq<Entry<V>>)
  {
    if m == [] then [Entry(k, v)]
    else if m[0].key == k then [Entry(k, v)] + m[1..]
    else [m[0]] + Put(m[1..], k, v)
  }

  /** After `m[k] = v`, `m[k]` is `v` and every other key reads as before. */
  lemma {:induction false} PutGet<V>(m: seq<Entry<V>>, k: string, v: V, k': string)
    ensures Get(Put(m, k, v), k') == if k' == k then Some(v) else Get(m, k')
  {
    if m != [] && m[0].key != k {
      PutGet(m[1..], k, v, k');
    }
  }

  /** An assignment keeps the key order and appends a key that is new. */
  lemma {:induction false} PutKeys<V>(m: seq<Entry<V>>, k: string, v: V)
    ensures Keys(Put(m, k, v)) == if k in Keys(m) then Keys(m) else Keys(m) + [k]
  {
    if m != [] && m[0].key != k {
      PutKeys(m[1..], k, v);
      assert Keys(m) == [m[0].key] + Keys(m[1..]);
    }
  }

  /** An assignment keeps keys unique and leaves only old entries or the new one. */
  lemma {:induction false} PutEntries<V>(m: seq<Entry<V>>, k: string, v: V)
    ensures UniqueKeys(m) ==> UniqueKeys(Put(m, k, v))
    ensures forall e :: e in Put(m, k, v) ==> e in m || e == Entry(k, v)
  {
    if m != [] && m[0].key != k {
      PutEntries(m[1..], k, v);
      PutKeys(m[1..], k, v);
      var r := Put(m, k, v);
      if UniqueKeys(m) {
        forall j | 0 < j < |r| ensures r[j].key != m[0].key {
          assert r[j] in Put(m[1..], k, v);
          if r[j] != Entry(k, v) {
            var i :| 0 <= i < |m| - 1 && m[1..][i] == r[j];
            assert m[i + 1] == r[j];
          }
        }
      }
    }
  }

  /** The assignments of `es`, performed on `m` from left to right. */
  function PutAll<V>(m: seq<Entry<V>>, es: seq<Entry<V>>): (r: seq<Entry<V>>)
    decreases es
  {
    if es == [] then m
    else PutAll(Put(m, es[0].key, es[0].value), es[1..])
  }

  /** The fold keeps keys unique; its keys and entries come from `m` or `es`. */
  lemma {:induction false} PutAllEntries<V>(m: seq<Entry<V>>, es: seq<Entry<V>>)
    ensures UniqueKeys(m) ==> UniqueKeys(PutAll(m, es))
    ensures forall k :: k in Keys(PutAll(m, es)) <==> k in Keys(m) || k in Keys(es)
    ensures forall e :: e in PutAll(m, es) ==> e in m || e in es
    decreases es
  {
    if es != [] {
      var m' := Put(m, es[0].key, es[0].value);
      PutEntries(m, es[0].key, es[0].value);
      PutKeys(m, es[0].key, es[0].value);
      PutAllEntries(m', es[1..]);
      assert Keys(es) == [es[0].key] + Keys(es[1..]);
    }
  }

  /** One more assignment at the end of the fold: what a loop step does. */
  lemma {:induction false} PutAllSnoc<V>(m: seq<Entry<V>>, es: seq<Entry<V>>, e: Entry<V>)
    ensures PutAll(m, es + [e]) == Put(PutAll(m, es), e.key, e.value)
    decreases es
  {
    if es == [] {
      assert es + [e] == [e];
    } else {
      assert (es + [e])[1..] == es[1..] + [e];
      PutAllSnoc(Put(m, es[0].key, es[0].value), es[1..], e);
    }
  }

  /** A key that no assignment touches keeps its old value. */
  lemma {:induction false} PutAllUntouched<V>(m: seq<Entry<V>>, es: seq<Entry<V>>, k: string)
    requires k !in Keys(es)
    ensures Get(PutAll(m, es), k) == Get(m, k)
    decreases es
  {
    if es != [] {
      assert Keys(es) == [es[0].key] + Keys(es[1..]);
      PutGet(m, es[0].key, es[0].value, k);
      PutAllUntouched(Put(m, es[0].key, es[0].value), es[1..], k);
    }
  }

  /** The last assignment to a key decides its value. */
  lemma {:induction false} PutAllLastWins<V>(m: seq<Entry<V>>, es: seq<Entry<V>>, i: nat)
    requires i < |es|
    requires forall j :: i < j < |es| ==> es[j].key != es[i].key
    ensures Get(PutAll(m, es), es[i].key) == Some(es[i].value)
    decreases es
  {
    var m' := Put(m, es[0].key, es[0].value);
    if i == 0 {
      assert es[0].key !in Keys(es[1..]) by {
        forall j | 0 <= j < |es| - 1 ensures Keys(es[1..])[j] != es[0].key {
          KeysAt(es[1..], j);
          assert es[1..][j] == es[j + 1];
        }
      }
      PutGet(m, es[0].key, es[0].value, es[0].key);
      PutAllUntouched(m', es[1..], es[0].key);
    } else {
      assert es[1..][i - 1] == es[i];
      PutAllLastWins(m', es[1..], i - 1);
    }
  }

  /** Assigning keys that are distinct and new appends the entries in order. */
  lemma {:induction false} PutAllFresh<V>(m: seq<Entry<V>>, es: seq<Entry<V>>)
    requires UniqueKeys(es)
    requires forall k :: k in Keys(es) ==> k !in Keys(m)
    ensures PutAll(m, es) == m + es
    decreases es
  {
    if es == [] {
      assert m + es == m;
    } else {
      var m' := Put(m, es[0].key, es[0].value);
      assert Keys(es) == [es[0].key] + Keys(es[1..]);
      PutNew(m, es[0].key, es[0].value);
      PutKeys(m, es[0].key, es[0].value);
      forall k | k in Keys(es[1..]) ensures k !in Keys(m') {
        var j :| 0 <= j < |es| - 1 && Keys(es[1..])[j] == k;
        KeysAt(es[1..], j);
        assert es[1..][j] == es[j + 1];
      }
      assert UniqueKeys(es[1..]) by {
        forall a, b | 0 <= a < b < |es| - 1 ensures es[1..][a].key != es[1..][b].key {
          assert es[1..][a] == es[a + 1] && es[1..][b] == es[b + 1];
        }
      }
      PutAllFresh(m', es[1..]);
      assert m' + es[1..] == m + es;
    }
  }

  /** Assigning a key that is absent appends it. */
  lemma {:induction false} PutNew<V>(m: seq<Entry<V>>, k: string, v: V)
    requires k !in Keys(m)
    ensures Put(m, k, v) == m + [Entry(k, v)]
  {
    if m != [] {
      assert Keys(m) == [m[0].key] + Keys(m[1..]);
      PutNew(m[1..], k, v);
      assert [m[0]] + (m[1..] + [Entry(k, v)]) == m + [Entry(k, v)];
    }
  }

  /** A key is present exactly when some entry carries it. */
  lemma KeysMembership<V>(m: seq<Entry<V>>, k: string)
    ensures k in Keys(m) <==> exists i :: 0 <= i < |m| && m[i].key == k
  {
    if k in Keys(m) {
      var i :| 0 <= i < |m| && Keys(m)[i] == k;
      KeysAt(m, i);
    }
    if i :| 0 <= i < |m| && m[i].key == k {
      KeysAt(m, i);
    }
  }
}
