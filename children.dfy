/** The child filter of `gather_children` (osf_pigeon/pigeon.py:196): the
    registrations listed under a root, queried with `filter[root]=guid`,
    include the root itself, which is dropped; the others' ids are kept
    in listing order. */
module Children {
  import opened Common

  /** The `id` of each listed registration, when every one of them is a
      dict holding one. */
  predicate AllHaveIds(items: seq<Json>) {
    forall i :: 0 <= i < |items| ==> items[i].JObj? && "id" in items[i].fields
  }

  function IdsOf(items: seq<Json>): (ids: seq<Json>)
    requires AllHaveIds(items)
    ensures |ids| == |items| && forall i :: 0 <= i < |items| ==> ids[i] == items[i].fields["id"]
  {
    if items == [] then [] else IdsOf(items[..|items| - 1]) + [items[|items| - 1].fields["id"]]
  }

  /** Every listed registration has an id exactly when all but the last
      have one and the last has one too. */
  lemma AllHaveIdsSplit(items: seq<Json>)
    requires items != []
    ensures var init, last := items[..|items| - 1], items[|items| - 1];
      && (AllHaveIds(items) <==> AllHaveIds(init) && last.JObj? && "id" in last.fields)
      && (AllHaveIds(items) ==> IdsOf(items) == IdsOf(init) + [last.fields["id"]])
  {
    var init := items[..|items| - 1];
    if AllHaveIds(init) && items[|items| - 1].JObj? && "id" in items[|items| - 1].fields {
      forall i | 0 <= i < |items| ensures items[i].JObj? && "id" in items[i].fields {
        if i < |init| {
          assert items[i] == init[i];
        }
      }
    }
  }

  /** `[child['id'] for child in items if child['id'] != guid]`. */
  function ChildIds(items: seq<Json>, guid: string): (r: Result<seq<Json>>)
    ensures r.Ok? <==> AllHaveIds(items)
    ensures r.Err? ==> r.error.TypeError? || r.error == KeyError("id")
    ensures r.Ok? ==> |r.value| <= |items| && JStr(guid) !in r.value
    ensures r.Ok? ==> forall x :: x != JStr(guid) ==> multiset(r.value)[x] == multiset(IdsOf(items))[x]
  {
    if items == [] then Ok([])
    else
      AllHaveIdsSplit(items);
      var init := items[..|items| - 1];
      var kept :- ChildIds(init, guid);
      var id :- Get(items[|items| - 1], "id");
      Ok(kept + (if id != JStr(guid) then [id] else []))
  }

  /** `response.json()['data']` iterated by the comprehension: a list is
      filtered; an empty dict or string yields nothing; iterating a
      non-empty dict or string yields strings, whose `['id']` is a
      TypeError, as is iterating anything else. */
  function ChildGuids(data: Json, guid: string): (r: Result<seq<Json>>)
    ensures data.JArr? ==> r == ChildIds(data.items, guid)
    ensures !data.JArr? ==> (r.Ok? <==> data == JObj(map[]) || data == JStr(""))
    ensures r.Ok? ==> JStr(guid) !in r.value
  {
    match data
    case JArr(items) => ChildIds(items, guid)
    case JObj(m) => if m == map[] then Ok([]) else Err(TypeError)
    case JStr(s) => if s == "" then Ok([]) else Err(TypeError)
    case _ => Err(TypeError)
  }

  /** An id is kept exactly when some listed registration has it and it is
      not the root's. */
  lemma ChildIdsMembership(items: seq<Json>, guid: string, x: Json)
    requires AllHaveIds(items)
    ensures x in ChildIds(items, guid).value <==> x != JStr(guid) && exists i :: 0 <= i < |items| && items[i].fields["id"] == x
  {
    var kept := ChildIds(items, guid).value;
    var ids := IdsOf(items);
    if x != JStr(guid) {
      assert x in kept <==> x in multiset(kept);
      assert multiset(kept)[x] == multiset(ids)[x];
      assert x in ids <==> x in multiset(ids);
      if x in ids {
        var i :| 0 <= i < |ids| && ids[i] == x;
        assert items[i].fields["id"] == x;
      }
    }
  }

  /** Filtering a listing in two parts keeps the order of the parts. */
  lemma {:induction false} ChildIdsAppend(a: seq<Json>, b: seq<Json>, guid: string)
    requires AllHaveIds(a) && AllHaveIds(b)
    ensures AllHaveIds(a + b)
    ensures ChildIds(a + b, guid) == Ok(ChildIds(a, guid).value + ChildIds(b, guid).value)
  {
    assert AllHaveIds(a + b) by {
      forall i | 0 <= i < |a + b| ensures (a + b)[i].JObj? && "id" in (a + b)[i].fields {
        if i < |a| {
          assert (a + b)[i] == a[i];
        } else {
          assert (a + b)[i] == b[i - |a|];
        }
      }
    }
    if b == [] {
      assert a + b == a;
      assert ChildIds(a, guid).value + ChildIds(b, guid).value == ChildIds(a, guid).value;
    } else {
      var init := b[..|b| - 1];
      assert AllHaveIds(init) by {
        forall i | 0 <= i < |init| ensures init[i].JObj? && "id" in init[i].fields {
          assert init[i] == b[i];
        }
      }
      ChildIdsAppend(a, init, guid);
      assert (a + b)[..|a + b| - 1] == a + init;
      assert (a + b)[|a + b| - 1] == b[|b| - 1];
      var id := b[|b| - 1].fields["id"];
      var tail := if id != JStr(guid) then [id] else [];
      var ka, ki := ChildIds(a, guid).value, ChildIds(init, guid).value;
      assert ChildIds(b, guid) == Ok(ki + tail);
      assert ChildIds(a + b, guid) == Ok((ka + ki) + tail);
      assert (ka + ki) + tail == ka + (ki + tail);
    }
  }

  /** Without the root in the listing, every id is kept, in order. */
  lemma {:induction false} NoRootKeepsAll(items: seq<Json>, guid: string)
    requires AllHaveIds(items)
    requires forall i :: 0 <= i < |items| ==> items[i].fields["id"] != JStr(guid)
    ensures ChildIds(items, guid) == Ok(IdsOf(items))
  {
    if items != [] {
      var init := items[..|items| - 1];
      assert AllHaveIds(init) by {
        forall i | 0 <= i < |init| ensures init[i].JObj? && "id" in init[i].fields {
          assert init[i] == items[i];
        }
      }
      NoRootKeepsAll(init, guid);
    }
  }
}
