/** The parts of the WHATWG URL Standard the cleaner uses: a parsed URL
    (origin, host name, path and the ordered list of query pairs), the
    `URLSearchParams` list with its `delete` operation (section 6.2 of the URL
    Standard) and its `toString` serializer (the
    application/x-www-form-urlencoded serializer, section 5.2). The parser
    itself is not modelled; the cleaner receives it as a partial function. */
module Url {
  import opened Text

  datatype Option<T> = None | Some(value: T)

  /** One name-value pair of a query, as `URLSearchParams` holds it. */
  datatype Param = Param(key: string, value: string)

  /** What `new URL(...)` yields that the cleaner reads. */
  datatype ParsedUrl = ParsedUrl(origin: string, hostname: string, pathname: string, query: seq<Param>)

  /** The pairs of `q` whose key is not `name`, in their original order. */
  function Deleted(q: seq<Param>, name: string): (r: seq<Param>)
    ensures |r| <= |q|
    ensures forall i :: 0 <= i < |r| ==> r[i].key != name
  {
    if q == [] then []
    else
      var last := q[|q| - 1];
      Deleted(q[..|q| - 1], name) + (if last.key == name then [] else [last])
  }

  /** The result of deleting each of `names`, one after the other. */
  function DeletedAll(q: seq<Param>, names: seq<string>): (r: seq<Param>)
  {
    if names == [] then q
    else Deleted(DeletedAll(q, names[..|names| - 1]), names[|names| - 1])
  }

  /** Reference definition: the pairs of `q` whose key is not in `keys`. */
  function WithoutKeys(q: seq<Param>, keys: set<string>): (r: seq<Param>)
  {
    if q == [] then []
    else
      var last := q[|q| - 1];
      WithoutKeys(q[..|q| - 1], keys) + (if last.key in keys then [] else [last])
  }

  /** A pair survives WithoutKeys exactly when its key is not removed. */
  lemma {:induction false} WithoutKeysMembers(q: seq<Param>, keys: set<string>, p: Param)
    ensures p in WithoutKeys(q, keys) <==> p in q && p.key !in keys
  {
    if q != [] {
      WithoutKeysMembers(q[..|q| - 1], keys, p);
      assert q == q[..|q| - 1] + [q[|q| - 1]];
    }
  }

  /** Deleting one more name from a filtered list is filtering by one more key. */
  lemma {:induction false} DeletedWithoutKeys(q: seq<Param>, keys: set<string>, name: string)
    ensures Deleted(WithoutKeys(q, keys), name) == WithoutKeys(q, keys + {name})
  {
    if q != [] {
      var init, last := q[..|q| - 1], q[|q| - 1];
      DeletedWithoutKeys(init, keys, name);
      DeletedAppend(WithoutKeys(init, keys), if last.key in keys then [] else [last], name);
    }
  }

  /** Deleting one name keeps exactly the pairs whose key is not that name,
      in order: it is the reference filter by the single key. */
  lemma DeletedIsWithoutKey(q: seq<Param>, name: string)
    ensures Deleted(q, name) == WithoutKeys(q, {name})
  {
    DeletedWithoutKeys(q, {}, name);
    WithoutNoKeys(q);
    assert {} + {name} == {name};
  }

  /** Deleted distributes over concatenation, so it keeps relative order. */
  lemma {:induction false} DeletedAppend(a: seq<Param>, b: seq<Param>, name: string)
    ensures Deleted(a + b, name) == Deleted(a, name) + Deleted(b, name)
    decreases |b|
  {
    if b == [] {
      assert a + b == a;
    } else {
      var b' := b[..|b| - 1];
      assert (a + b)[..|a + b| - 1] == a + b';
      DeletedAppend(a, b', name);
    }
  }

  /** Filtering by no key keeps everything. */
  lemma {:induction false} WithoutNoKeys(q: seq<Param>)
    ensures WithoutKeys(q, {}) == q
  {
    if q != [] {
      WithoutNoKeys(q[..|q| - 1]);
    }
  }

  /** The names of a list, as a set. */
  function Names(names: seq<string>): set<string>
  {
    set n | n in names
  }

  /** Deleting a list of names one by one removes exactly the pairs whose key
      is one of them, whatever the order and repetitions of the names. */
  lemma {:induction false} DeletedAllIsWithoutKeys(q: seq<Param>, names: seq<string>)
    ensures DeletedAll(q, names) == WithoutKeys(q, Names(names))
  {
    if names == [] {
      WithoutNoKeys(q);
      assert Names(names) == {};
    } else {
      var init, last := names[..|names| - 1], names[|names| - 1];
      DeletedAllIsWithoutKeys(q, init);
      DeletedWithoutKeys(q, Names(init), last);
      assert Names(names) == Names(init) + {last} by {
        assert names == init + [last];
      }
    }
  }

  /** Filtering twice is filtering by the union of the two key sets. */
  lemma {:induction false} WithoutKeysTwice(q: seq<Param>, a: set<string>, b: set<string>)
    ensures WithoutKeys(WithoutKeys(q, a), b) == WithoutKeys(q, a + b)
  {
    if q != [] {
      var init, last := q[..|q| - 1], q[|q| - 1];
      WithoutKeysTwice(init, a, b);
      WithoutKeysAppend(WithoutKeys(init, a), if last.key in a then [] else [last], b);
    }
  }

  /** WithoutKeys distributes over concatenation. */
  lemma {:induction false} WithoutKeysAppend(x: seq<Param>, y: seq<Param>, keys: set<string>)
    ensures WithoutKeys(x + y, keys) == WithoutKeys(x, keys) + WithoutKeys(y, keys)
    decreases |y|
  {
    if y == [] {
      assert x + y == x;
    } else {
      var y' := y[..|y| - 1];
      assert (x + y)[..|x + y| - 1] == x + y';
      WithoutKeysAppend(x, y', keys);
    }
  }

  /** The `URLSearchParams` object of one URL: an ordered list of pairs that
      `delete` updates in place. */
  class SearchParams {
    var list: seq<Param>

    constructor (init: seq<Param>)
      ensures list == init
    {
      list := init;
    }

    /** `delete(name)`: removes every pair whose key is `name` and keeps the
        others in their order. */
    method Delete(name: string)
      modifies this
      ensures list == Deleted(old(list), name)
    {
      var q := list;
      var kept: seq<Param> := [];
      for i := 0 to |q|
        invariant kept == Deleted(q[..i], name)
      {
        assert q[..i + 1][..i] == q[..i];
        if q[i].key != name {
          kept := kept + [q[i]];
        }
      }
      assert q[..|q|] == q;
      list := kept;
    }

    /** `names.forEach(n => params.delete(n))`: the names deleted in order. */
    method DeleteEach(names: seq<string>)
      modifies this
      ensures list == DeletedAll(old(list), names)
    {
      for i := 0 to |names|
        invariant list == DeletedAll(old(list), names[..i])
      {
        assert names[..i + 1][..i] == names[..i];
        Delete(names[i]);
      }
      assert names[..|names|] == names;
    }

    /** `toString()`. */
    function ToString(): (r: string)
      reads this
      ensures r == [] <==> list == []
    {
      SerializeQuery(list)
    }
  }

  // ---------------------------------------------------------------------
  // application/x-www-form-urlencoded serialization

  /** The characters the urlencoded serializer writes unchanged: ASCII
      alphanumerics and `*`, `-`, `.`, `_`. */
  predicate IsUnreserved(c: char) {
    ('a' <= c <= 'z') || ('A' <= c <= 'Z') || ('0' <= c <= '9')
    || c == '*' || c == '-' || c == '.' || c == '_'
  }

  /** The characters a serialized query can contain. */
  predicate IsQueryChar(c: char) {
    IsUnreserved(c) || c == '+' || c == '%' || c == '=' || c == '&'
  }

  /** No character of a serialized query is white space or `?`. */
  lemma QueryCharIsPlain(c: char)
    requires IsQueryChar(c)
    ensures !IsWhiteSpace(c) && c != '?'
  {
  }

  /** The UTF-8 encoding of one Unicode scalar value. */
  function Utf8(c: char): (r: seq<int>)
    ensures 1 <= |r| <= 4
    ensures forall i :: 0 <= i < |r| ==> 0 <= r[i] < 256
    ensures c as int < 0x80 <==> |r| == 1
    ensures |r| == 1 ==> r[0] == c as int
  {
    var n := c as int;
    if n < 0x80 then [n]
    else if n < 0x800 then [0xC0 + n / 0x40, 0x80 + n % 0x40]
    else if n < 0x1_0000 then [0xE0 + n / 0x1000, 0x80 + n / 0x40 % 0x40, 0x80 + n % 0x40]
    else [0xF0 + n / 0x4_0000, 0x80 + n / 0x1000 % 0x40, 0x80 + n / 0x40 % 0x40, 0x80 + n % 0x40]
  }

  function HexDigit(d: int): (r: char)
    requires 0 <= d < 16
    ensures IsUnreserved(r)
  {
    "0123456789ABCDEF"[d]
  }

  /** Each byte written as `%` and two upper-case hexadecimal digits. */
  function PercentEncode(bytes: seq<int>): (r: string)
    requires forall i :: 0 <= i < |bytes| ==> 0 <= bytes[i] < 256
    ensures |r| == 3 * |bytes|
    ensures forall i :: 0 <= i < |r| ==> IsQueryChar(r[i]) && r[i] != '=' && r[i] != '&'
  {
    if bytes == [] then ""
    else ['%', HexDigit(bytes[0] / 16), HexDigit(bytes[0] % 16)] + PercentEncode(bytes[1..])
  }

  /** One character as the urlencoded serializer writes it: a space as `+`,
      an unreserved character as itself, anything else percent-encoded. */
  function EncodeChar(c: char): (r: string)
    ensures r != []
    ensures forall i :: 0 <= i < |r| ==> IsQueryChar(r[i]) && r[i] != '=' && r[i] != '&'
  {
    if c == ' ' then "+"
    else if IsUnreserved(c) then [c]
    else PercentEncode(Utf8(c))
  }

  /** A name or a value as the urlencoded serializer writes it. */
  function Encode(s: string): (r: string)
    ensures |r| >= |s|
    ensures forall i :: 0 <= i < |r| ==> IsQueryChar(r[i]) && r[i] != '=' && r[i] != '&'
  {
    if s == [] then "" else EncodeChar(s[0]) + Encode(s[1..])
  }

  /** `name=value`, always with the `=`. */
  function SerializePair(p: Param): (r: string)
    ensures r != []
    ensures forall i :: 0 <= i < |r| ==> IsQueryChar(r[i]) && r[i] != '&'
  {
    Encode(p.key) + "=" + Encode(p.value)
  }

  /** The pairs serialized in order and joined with `&`. */
  function SerializeQuery(q: seq<Param>): (r: string)
    ensures r == [] <==> q == []
    ensures forall i :: 0 <= i < |r| ==> IsQueryChar(r[i])
  {
    if q == [] then ""
    else if |q| == 1 then SerializePair(q[0])
    else SerializeQuery(q[..|q| - 1]) + "&" + SerializePair(q[|q| - 1])
  }
}
