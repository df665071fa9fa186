/** The request headers as the handlers see them (Starlette's `Headers`):
    the lookup `request.headers.get(...)`, the copy `dict(request.headers)`
    that `proxy` logs (main.py:141, 152), and the text `csv.writer` stores
    for that dict. */
module HttpHeaders {
  import opened Wrappers
  import opened Text

  /** One header line of the request. Names are lower-case, as the server
      hands them over; a lookup lower-cases the name it is given. */
  datatype Header = Header(name: string, value: string)

  /** `headers.get(name)`: the value of the first header with that name. */
  function Get(hs: seq<Header>, name: string): Option<string>
  {
    if hs == [] then None
    else if hs[0].name == name then Some(hs[0].value)
    else Get(hs[1..], name)
  }

  lemma {:induction false} GetFound(hs: seq<Header>, name: string)
    requires Get(hs, name).Some?
    ensures Header(name, Get(hs, name).value) in hs
  {
    if hs[0].name != name {
      GetFound(hs[1..], name);
    }
  }

  /** `hs` with every header named `name` removed. */
  function Without(hs: seq<Header>, name: string): seq<Header>
  {
    if hs == [] then []
    else (if hs[0].name == name then [] else [hs[0]]) + Without(hs[1..], name)
  }

  lemma {:induction false} GetWithout(hs: seq<Header>, name: string, n: string)
    ensures Get(Without(hs, name), n) == if n == name then None else Get(hs, n)
  {
    if hs != [] {
      GetWithout(hs[1..], name, n);
      if hs[0].name == name {
        assert [] + Without(hs[1..], name) == Without(hs[1..], name);
      } else {
        assert ([hs[0]] + Without(hs[1..], name))[1..] == Without(hs[1..], name);
      }
    }
  }

  lemma {:induction false} WithoutKeepsDistinct(hs: seq<Header>, name: string)
    requires DistinctNames(hs)
    ensures DistinctNames(Without(hs, name))
    ensures forall h :: h in Without(hs, name) ==> h in hs && h.name != name
  {
    if hs != [] {
      assert DistinctNames(hs[1..]) by {
        forall i, j | 0 <= i < j < |hs| - 1 ensures hs[1..][i].name != hs[1..][j].name {
          assert hs[1..][i] == hs[i + 1] && hs[1..][j] == hs[j + 1];
        }
      }
      WithoutKeepsDistinct(hs[1..], name);
      var w := Without(hs[1..], name);
      forall h | h in w ensures h.name != hs[0].name {
        var j :| 1 <= j < |hs| && hs[j] == h;
      }
    }
  }

  predicate DistinctNames(hs: seq<Header>)
  {
    forall i, j :: 0 <= i < j < |hs| ==> hs[i].name != hs[j].name
  }

  /** `dict(headers)`: one item per name, in order of first appearance, with
      the value `headers[name]` gives, which is the first one. */
  function AsDict(hs: seq<Header>): seq<Header>
  {
    if hs == [] then [] else [hs[0]] + Without(AsDict(hs[1..]), hs[0].name)
  }

  /** The dict answers every lookup as the headers do, and holds each name
      once. */
  lemma {:induction false} AsDictSpec(hs: seq<Header>)
    ensures forall n :: Get(AsDict(hs), n) == Get(hs, n)
    ensures DistinctNames(AsDict(hs))
  {
    if hs != [] {
      var tail := AsDict(hs[1..]);
      var w := Without(tail, hs[0].name);
      AsDictSpec(hs[1..]);
      WithoutKeepsDistinct(tail, hs[0].name);
      forall n ensures Get(AsDict(hs), n) == Get(hs, n) {
        GetWithout(tail, hs[0].name, n);
        assert ([hs[0]] + w)[1..] == w;
      }
      forall i, j | 0 <= i < j < |AsDict(hs)| ensures AsDict(hs)[i].name != AsDict(hs)[j].name {
        assert AsDict(hs)[j] == w[j - 1];
        if i > 0 {
          assert AsDict(hs)[i] == w[i - 1];
        }
      }
    }
  }

  /** `repr` of a string inside `str(dict)`, without its choice of quote or
      its escaping (see README, Rendering). */
  function Quote(s: string): string
  {
    "'" + s + "'"
  }

  function Item(h: Header): string
  {
    Quote(h.name) + ": " + Quote(h.value)
  }

  function Items(ds: seq<Header>): string
  {
    if ds == [] then ""
    else if |ds| == 1 then Item(ds[0])
    else Item(ds[0]) + ", " + Items(ds[1..])
  }

  /** `str(d)` of a dict of headers: `{'name': 'value', ...}`. This is what
      `csv.writer` stores for `request_headers`. */
  function Render(ds: seq<Header>): string
  {
    "{" + Items(ds) + "}"
  }

  lemma {:induction false} ItemsShow(ds: seq<Header>, h: Header)
    requires h in ds
    ensures Infix(Item(h), Items(ds))
  {
    var first := Item(ds[0]);
    if |ds| == 1 {
      assert h == ds[0];
      InfixStart(first, "");
      assert first + "" == Items(ds);
    } else {
      var rest := Items(ds[1..]);
      var all := Items(ds);
      assert all == (first + ", ") + rest;
      if h == ds[0] {
        InfixStart(first, ", " + rest);
        assert first + (", " + rest) == all;
      } else {
        ItemsShow(ds[1..], h);
        InfixEnd(first + ", ", rest);
        InfixTrans(Item(h), rest, all);
      }
    }
  }

  lemma ItemShowsValue(h: Header)
    ensures Infix(h.value, Item(h))
  {
    InfixOf(Quote(h.name) + ": '", h.value, "'");
    assert Quote(h.name) + ": '" + h.value + "'" == Item(h);
  }

  /** The rendered copy of the headers shows the value of every header that
      a lookup finds, verbatim. */
  lemma ValueLogged(hs: seq<Header>, name: string)
    requires Get(hs, name).Some?
    ensures Infix(Get(hs, name).value, Render(AsDict(hs)))
  {
    var h := Header(name, Get(hs, name).value);
    var d := AsDict(hs);
    AsDictSpec(hs);
    assert Get(d, name) == Get(hs, name);
    GetFound(d, name);
    ItemShowsValue(h);
    ItemsShow(d, h);
    InfixTrans(h.value, Item(h), Items(d));
    InfixOf("{", Items(d), "}");
    InfixTrans(h.value, Items(d), Render(d));
  }
}
