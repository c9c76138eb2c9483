/** The two external stores the service writes to: the secret store behind
    `GetSecret` / `SetSecret` and the `accounts` table (src/db.ts), each as a
    map held by an object whose methods update it in place. */
module Stores {
  import opened Wrappers
  import opened Json

  /** What a failed `SetSecret` call throws. */
  datatype StoreFault = WriteFailed(name: string)

  class SecretStore {
    /** The stored secrets, by name. */
    var secrets: map<string, string>
    /** The names written so far, in order. */
    ghost var written: seq<string>

    constructor (initial: map<string, string>)
      ensures secrets == initial && written == []
    {
      secrets := initial;
      written := [];
    }

    /** `GetSecret(name)`, as the service tests it (`if (!secret)`): a missing
        and an empty secret are both absent. */
    function Get(name: string): (r: Option<string>)
      reads this
      ensures r.Some? <==> name in secrets && secrets[name] != ""
      ensures r.Some? ==> r.value == secrets[name]
    {
      if name in secrets && secrets[name] != "" then Some(secrets[name]) else None
    }

    /** `SetSecret(name, value)`: stores `value` and returns it, or throws
        (when `fails`) and stores nothing. */
    method Set(name: string, value: string, fails: bool) returns (r: Outcome<string, StoreFault>)
      modifies this
      ensures fails ==> r == Threw(WriteFailed(name)) && secrets == old(secrets) && written == old(written)
      ensures !fails ==> r == Returned(value) && secrets == old(secrets)[name := value]
      ensures !fails ==> written == old(written) + [name]
    {
      if fails {
        return Threw(WriteFailed(name));
      }
      secrets := secrets[name := value];
      written := written + [name];
      r := Returned(value);
    }
  }

  /** The key of a row of the accounts table: hash key `id`, range key `sk`. */
  datatype RowKey = RowKey(id: string, sk: string)

  /** The key a row is stored under: its `id` and `sk` attributes, when both
      are strings (the table's schema requires them to be). */
  function KeyOf(attrs: Attrs): (r: Option<RowKey>)
    ensures r.Some? <==> "id" in attrs && attrs["id"].Str? && "sk" in attrs && attrs["sk"].Str?
    ensures r.Some? ==> attrs["id"] == Str(r.value.id) && attrs["sk"] == Str(r.value.sk)
  {
    if "id" in attrs && attrs["id"].Str? && "sk" in attrs && attrs["sk"].Str? then
      Some(RowKey(attrs["id"].s, attrs["sk"].s))
    else
      None
  }

  /** `order` lists, once each, exactly the keys of the rows whose id is `id`
      and whose sort key begins with `prefix`: the rows a query
      `.query(id).where('sk').beginsWith(prefix)` yields, in the table's order. */
  ghost predicate ListsQuery(rows: map<RowKey, Attrs>, id: string, prefix: string, order: seq<RowKey>)
  {
    && (forall i :: 0 <= i < |order| ==> order[i] in rows && order[i].id == id && prefix <= order[i].sk)
    && (forall k :: k in rows && k.id == id && prefix <= k.sk ==> k in order)
    && (forall i, j :: 0 <= i < j < |order| ==> order[i] != order[j])
  }

  class AccountsTable {
    /** The rows, by key. */
    var rows: map<RowKey, Attrs>

    /** Every row is stored under its own `id` and `sk`. */
    ghost predicate Valid()
      reads this
    {
      forall k :: k in rows ==> KeyOf(rows[k]) == Some(k)
    }

    constructor (initial: map<RowKey, Attrs>)
      requires forall k :: k in initial ==> KeyOf(initial[k]) == Some(k)
      ensures Valid() && rows == initial
    {
      rows := initial;
    }

    /** `model.get(id, sk)`: the row's attributes, if there is one. */
    function Get(key: RowKey): (r: Option<Attrs>)
      reads this
      requires Valid()
      ensures r.Some? <==> key in rows
      ensures r.Some? ==> r.value == rows[key] && KeyOf(r.value) == Some(key)
    {
      if key in rows then Some(rows[key]) else None
    }

    /** `model.create(attrs, { overwrite: true })`: stores the row under its
        own key, replacing any row there. */
    method Put(attrs: Attrs)
      requires Valid() && KeyOf(attrs).Some?
      modifies this
      ensures Valid()
      ensures rows == old(rows)[KeyOf(attrs).value := attrs]
    {
      rows := rows[KeyOf(attrs).value := attrs];
    }

    /** `model.destroy(id, sk)`. */
    method Destroy(key: RowKey)
      requires Valid()
      modifies this
      ensures Valid()
      ensures rows == old(rows) - {key}
    {
      rows := rows - {key};
    }

    /** `model.query(id).where('sk').beginsWith(prefix)`: the matching rows in
        the order the table returns them. */
    method Query(id: string, prefix: string, order: seq<RowKey>) returns (items: seq<Attrs>)
      requires Valid() && ListsQuery(rows, id, prefix, order)
      ensures |items| == |order|
      ensures forall i :: 0 <= i < |items| ==> items[i] == rows[order[i]]
      ensures forall i :: 0 <= i < |items| ==> KeyOf(items[i]) == Some(order[i])
    {
      var found := rows;
      items := seq(|order|, i requires 0 <= i < |order| && order[i] in found => found[order[i]]);
    }
  }
}
