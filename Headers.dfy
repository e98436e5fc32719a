/** Header stores.

    A fasthttp header (the request and the response header of a fiber context)
    is an ordered list of lines that may repeat a key: `Add` appends a line,
    `Peek` reads the first value of a key, `Set` overwrites the first line of a
    key (or appends one), `Del` removes every line of a key and `VisitAll`
    walks the lines in order.

    A net/http header (an outbound request, a callee's response) is a map from
    key to the list of its values; `Add` appends to that list. */
module Headers {

  /** fasthttp header lines, in order. */
  type Header = seq<(string, string)>

  /** net/http header: every key with its values in order. */
  type MultiMap = map<string, seq<string>>

  // ----- fasthttp header lines -------------------------------------------

  /** Every value stored under `key`, in line order. */
  function ValuesOf(h: Header, key: string): seq<string>
  {
    if h == [] then []
    else (if h[0].0 == key then [h[0].1] else []) + ValuesOf(h[1..], key)
  }

  /** The header has at least one line for `key`. */
  predicate Has(h: Header, key: string)
  {
    ValuesOf(h, key) != []
  }

  lemma {:induction false} ValuesOfConcat(s: Header, t: Header, key: string)
    ensures ValuesOf(s + t, key) == ValuesOf(s, key) + ValuesOf(t, key)
  {
    if s == [] {
      assert s + t == t;
    } else {
      assert (s + t)[1..] == s[1..] + t;
      ValuesOfConcat(s[1..], t, key);
    }
  }

  /** `Peek`: the first value of `key`, or "" (Go's `string(nil)`) when there
      is none. */
  function Peek(h: Header, key: string): (v: string)
    ensures v == if Has(h, key) then ValuesOf(h, key)[0] else ""
  {
    if h == [] then ""
    else if h[0].0 == key then h[0].1
    else Peek(h[1..], key)
  }

  /** `Set`: the first line of `key` gets `value`; later duplicates stay; a key
      with no line gets one appended. */
  function SetHeader(h: Header, key: string, value: string): (r: Header)
    ensures ValuesOf(r, key) == [value] + (if Has(h, key) then ValuesOf(h, key)[1..] else [])
    ensures forall k :: k != key ==> ValuesOf(r, k) == ValuesOf(h, k)
  {
    if h == [] then [(key, value)]
    else if h[0].0 == key then [(key, value)] + h[1..]
    else [h[0]] + SetHeader(h[1..], key, value)
  }

  /** `Del`: every line of `key` is removed, every other line kept. */
  function Del(h: Header, key: string): (r: Header)
    ensures ValuesOf(r, key) == []
    ensures forall k :: k != key ==> ValuesOf(r, k) == ValuesOf(h, k)
    ensures |r| <= |h|
  {
    if h == [] then []
    else if h[0].0 == key then Del(h[1..], key)
    else [h[0]] + Del(h[1..], key)
  }

  /** `Add`: one more line at the end. */
  function AddLine(h: Header, key: string, value: string): Header
  {
    h + [(key, value)]
  }

  /** Appending one line extends the values of its key and of no other. */
  lemma ValuesOfSnoc(h: Header, line: (string, string), key: string)
    ensures ValuesOf(h + [line], key) == ValuesOf(h, key) + (if line.0 == key then [line.1] else [])
  {
    ValuesOfConcat(h, [line], key);
    assert [line][1..] == [];
  }

  lemma AddLineValues(h: Header, key: string, value: string)
    ensures ValuesOf(AddLine(h, key, value), key) == ValuesOf(h, key) + [value]
    ensures forall k :: k != key ==> ValuesOf(AddLine(h, key, value), k) == ValuesOf(h, k)
  {
    forall k ensures ValuesOf(h + [(key, value)], k) == ValuesOf(h, k) + (if key == k then [value] else []) {
      ValuesOfSnoc(h, (key, value), k);
    }
  }

  // ----- VisitAll into a map[string]string --------------------------------

  /** What a `VisitAll` callback that stores every line whose key is not in
      `excluded` into a `map[string]string` leaves behind: a later line of the
      same key overwrites an earlier one. */
  function Snapshot(h: Header, excluded: set<string>): map<string, string>
  {
    if h == [] then map[]
    else
      var m := Snapshot(h[..|h| - 1], excluded);
      var (k, v) := h[|h| - 1];
      if k in excluded then m else m[k := v]
  }

  function Last(s: seq<string>): string
    requires s != []
  {
    s[|s| - 1]
  }

  /** The snapshot holds exactly the keys present and not excluded, each with
      the LAST value the header stores for it. */
  lemma {:induction false} SnapshotContents(h: Header, excluded: set<string>)
    ensures forall k :: k in Snapshot(h, excluded) <==> Has(h, k) && k !in excluded
    ensures forall k :: k in Snapshot(h, excluded) ==> Has(h, k) && Snapshot(h, excluded)[k] == Last(ValuesOf(h, k))
  {
    if h != [] {
      var init, line := h[..|h| - 1], h[|h| - 1];
      assert init + [line] == h;
      SnapshotContents(init, excluded);
      forall k ensures ValuesOf(h, k) == ValuesOf(init, k) + (if line.0 == k then [line.1] else []) {
        ValuesOfSnoc(init, line, k);
      }
    }
  }

  /** The `VisitAll` loop itself: visits the lines in order, skipping the
      excluded keys. */
  method VisitSnapshot(h: Header, excluded: set<string>) returns (m: map<string, string>)
    ensures m == Snapshot(h, excluded)
    ensures forall k :: k in m <==> Has(h, k) && k !in excluded
    ensures forall k :: k in m ==> Has(h, k) && m[k] == Last(ValuesOf(h, k))
  {
    m := map[];
    var i := 0;
    while i < |h|
      invariant 0 <= i <= |h|
      invariant m == Snapshot(h[..i], excluded)
    {
      var (key, value) := h[i];
      if key !in excluded {
        m := m[key := value];
      }
      assert h[..i + 1][..i] == h[..i];
      i := i + 1;
    }
    assert h[..i] == h;
    SnapshotContents(h, excluded);
  }

  // ----- net/http multi-value maps ---------------------------------------

  /** `Header.Values(key)`: the values of `key`, [] when absent. */
  function Get(m: MultiMap, key: string): seq<string>
  {
    if key in m then m[key] else []
  }

  /** `Header.Add(key, value)`. */
  function Add(m: MultiMap, key: string, value: string): (r: MultiMap)
    ensures Get(r, key) == Get(m, key) + [value]
    ensures forall k :: k != key ==> Get(r, k) == Get(m, k)
    ensures r.Keys == m.Keys + {key}
  {
    m[key := Get(m, key) + [value]]
  }

  /** fiber `GetReqHeaders`: the header lines grouped by key, values in line
      order. Also how a net/http client sees the lines a fasthttp server
      writes. */
  function Grouped(h: Header): MultiMap
  {
    if h == [] then map[]
    else Add(Grouped(h[..|h| - 1]), h[|h| - 1].0, h[|h| - 1].1)
  }

  /** Grouping loses nothing: each key maps to all its values, in order, and
      only keys that have a line appear. */
  lemma {:induction false} GroupedContents(h: Header)
    ensures forall k :: Get(Grouped(h), k) == ValuesOf(h, k)
    ensures forall k :: k in Grouped(h) <==> Has(h, k)
  {
    if h != [] {
      var init, line := h[..|h| - 1], h[|h| - 1];
      assert init + [line] == h;
      GroupedContents(init);
      forall k ensures ValuesOf(h, k) == ValuesOf(init, k) + (if line.0 == k then [line.1] else []) {
        ValuesOfSnoc(init, line, k);
      }
    }
  }
}
