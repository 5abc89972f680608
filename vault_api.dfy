/**
 * The mock item store (nk/api/dist/server.js): a schema check on posted cipher items and an
 * in-memory `Map` from id to item behind four handlers. The Map's insertion order is kept as
 * `order`, since listing returns the values in that order. A fresh id for a POST without one is a
 * parameter.
 */
module VaultApi {
  import opened Wrappers
  import opened Json

  /** A cipher item after the schema check: unknown keys are dropped, `id` and `meta` are optional. */
  datatype Body = Body(id: Option<string>, ct: string, iv: string, tag: string, meta: Option<Meta>)

  /** A stored item: the parsed body with its id filled in. */
  datatype Item = Item(id: string, ct: string, iv: string, tag: string, meta: Option<Meta>)

  predicate IsHexDigit(c: char)
  {
    '0' <= c <= '9' || 'a' <= c <= 'f' || 'A' <= c <= 'F'
  }

  /** The textual shape of a UUID: 8-4-4-4-12 hexadecimal digits separated by hyphens. */
  predicate IsUuid(s: string)
  {
    && |s| == 36
    && (forall i :: 0 <= i < 36 && (i == 8 || i == 13 || i == 18 || i == 23) ==> s[i] == '-')
    && (forall i :: 0 <= i < 36 && i != 8 && i != 13 && i != 18 && i != 23 ==> IsHexDigit(s[i]))
  }

  /** `z.string().min(1)` on a required key. */
  predicate NonEmptyString(fields: map<string, Json>, key: string)
  {
    key in fields && fields[key].Str? && fields[key].s != ""
  }

  /**
   * `CipherItem.safeParse`: the body must be an object whose `ct`, `iv` and `tag` are non-empty
   * strings, whose `id`, when present, is a UUID string, and whose `meta`, when present, is an object.
   */
  function Parse(body: Json): (r: Option<Body>)
    ensures r.Some? <==>
              && body.Object?
              && NonEmptyString(body.fields, "ct") && NonEmptyString(body.fields, "iv") && NonEmptyString(body.fields, "tag")
              && ("id" in body.fields ==> body.fields["id"].Str? && IsUuid(body.fields["id"].s))
              && ("meta" in body.fields ==> body.fields["meta"].Object?)
    ensures r.Some? ==>
              && r.value.ct != "" && r.value.iv != "" && r.value.tag != ""
              && Prop(body, "ct") == Some(Str(r.value.ct))
              && Prop(body, "iv") == Some(Str(r.value.iv))
              && Prop(body, "tag") == Some(Str(r.value.tag))
              && (r.value.id.Some? <==> "id" in body.fields)
              && (r.value.id.Some? ==> IsUuid(r.value.id.value) && Prop(body, "id") == Some(Str(r.value.id.value)))
              && (r.value.meta.Some? <==> "meta" in body.fields)
              && (r.value.meta.Some? ==> Prop(body, "meta") == Some(Object(r.value.meta.value)))
  {
    match body
    case Object(f) =>
      if !(NonEmptyString(f, "ct") && NonEmptyString(f, "iv") && NonEmptyString(f, "tag")) then None
      else if "id" in f && !(f["id"].Str? && IsUuid(f["id"].s)) then None
      else if "meta" in f && !f["meta"].Object? then None
      else
        Some(Body(if "id" in f then Some(f["id"].s) else None, f["ct"].s, f["iv"].s, f["tag"].s,
                  if "meta" in f then Some(f["meta"].fields) else None))
    case _ => None
  }

  /** `{...parsed.data, id}` with `id = parsed.data.id ?? randomUUID()`. */
  function Stored(b: Body, freshId: string): (item: Item)
    ensures b.id.Some? ==> item.id == b.id.value
    ensures b.id.None? ==> item.id == freshId
    ensures item.ct == b.ct && item.iv == b.iv && item.tag == b.tag && item.meta == b.meta
  {
    Item(if b.id.Some? then b.id.value else freshId, b.ct, b.iv, b.tag, b.meta)
  }

  /** No key occurs twice. */
  predicate Distinct(s: seq<string>)
  {
    forall i, j :: 0 <= i < j < |s| ==> s[i] != s[j]
  }

  /** `order` without `id`, the rest in the same order. */
  function Removed(order: seq<string>, id: string): (r: seq<string>)
    ensures forall x :: x in r <==> x in order && x != id
    ensures |r| <= |order|
    ensures id !in order ==> r == order
  {
    if order == [] then []
    else if order[0] == id then Removed(order[1..], id)
    else [order[0]] + Removed(order[1..], id)
  }

  /** Removing keeps the keys distinct. */
  lemma {:induction false} RemovedDistinct(order: seq<string>, id: string)
    requires Distinct(order)
    ensures Distinct(Removed(order, id))
  {
    if order != [] {
      RemovedDistinct(order[1..], id);
      if order[0] != id {
        var rest := Removed(order[1..], id);
        assert order[0] !in order[1..];
        assert order[0] !in rest;
        var r := [order[0]] + rest;
        forall i, j | 0 <= i < j < |r|
          ensures r[i] != r[j]
        {
          if i == 0 {
            assert r[j] == rest[j - 1];
          } else {
            assert r[i] == rest[i - 1] && r[j] == rest[j - 1];
          }
        }
      }
    }
  }

  /** Removing twice is removing once: a second DELETE of the same id changes nothing. */
  lemma {:induction false} RemovedIdempotent(order: seq<string>, id: string)
    ensures Removed(Removed(order, id), id) == Removed(order, id)
  {
    if order != [] {
      RemovedIdempotent(order[1..], id);
    }
  }

  /** A distinct sequence has as many elements as the set of its elements. */
  lemma {:induction false} DistinctCardinality(s: seq<string>)
    requires Distinct(s)
    ensures |set x | x in s| == |s|
  {
    if s != [] {
      DistinctCardinality(s[1..]);
      assert s[0] !in s[1..];
      assert (set x | x in s) == {s[0]} + (set x | x in s[1..]);
    }
  }

  /** The in-memory store: `db` and the insertion order of its keys. */
  class Store {
    var db: map<string, Item>
    var order: seq<string>

    /** `order` lists each key once, and every item is stored under its own id. */
    ghost predicate Valid()
      reads this
    {
      && Distinct(order)
      && (forall k :: k in order <==> k in db)
      && (forall k :: k in db ==> db[k].id == k)
    }

    constructor ()
      ensures Valid() && db == map[] && order == []
    {
      db := map[];
      order := [];
    }

    /**
     * POST /vault/items: 400 and no change when the schema check fails; otherwise 201 with the stored
     * item, written with `db.set`, which replaces an existing entry in place and appends a new key.
     */
    method Post(body: Json, freshId: string) returns (status: nat, item: Option<Item>)
      requires Valid()
      modifies this
      ensures Valid()
      ensures Parse(body).None? ==> status == 400 && item == None && db == old(db) && order == old(order)
      ensures Parse(body).Some? ==>
                var stored := Stored(Parse(body).value, freshId);
                && status == 201 && item == Some(stored)
                && db == old(db)[stored.id := stored]
                && order == (if stored.id in old(db) then old(order) else old(order) + [stored.id])
    {
      var parsed := Parse(body);
      if parsed.None? {
        return 400, None;
      }
      var stored := Stored(parsed.value, freshId);
      if stored.id !in db {
        order := order + [stored.id];
      }
      db := db[stored.id := stored];
      return 201, Some(stored);
    }

    /** GET /vault/items: every stored item exactly once, in insertion order. */
    method List() returns (items: seq<Item>)
      requires Valid()
      ensures |items| == |db| == |order|
      ensures forall i :: 0 <= i < |order| ==> items[i] == db[order[i]]
      ensures forall k :: k in db ==> db[k] in items
      ensures forall x :: x in items ==> x.id in db && db[x.id] == x
    {
      var keys, store := order, db;
      items := seq(|keys|, i requires 0 <= i < |keys| => store[keys[i]]);
      DistinctCardinality(order);
      assert (set x | x in order) == db.Keys;
      forall k | k in db
        ensures db[k] in items
      {
        var i :| 0 <= i < |order| && order[i] == k;
        assert items[i] == db[k];
      }
    }

    /** GET /vault/items/:id: the stored item, or 404. */
    method Get(id: string) returns (status: nat, item: Option<Item>)
      ensures id in db ==> status == 200 && item == Some(db[id])
      ensures id !in db ==> status == 404 && item == None
    {
      if id !in db {
        return 404, None;
      }
      return 200, Some(db[id]);
    }

    /** DELETE /vault/items/:id: removes that key, if present, and answers 204 either way. */
    method Delete(id: string) returns (status: nat)
      requires Valid()
      modifies this
      ensures Valid()
      ensures status == 204
      ensures db == old(db) - {id} && order == Removed(old(order), id)
    {
      RemovedDistinct(order, id);
      order := Removed(order, id);
      db := db - {id};
      return 204;
    }
  }
}
