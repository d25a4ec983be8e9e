/** `mockServices` of the API gateway: the read-only dataset the fallback answers from.
    Every record's `created_at` and `updated_at` is the time the gateway loaded it. */
module MockData {
  import opened Results
  import opened Json

  /** A record with `created_at` and `updated_at` both set to the load time, after its
      own members. */
  function Stamped(fields: seq<(string, Json)>, loadedAt: string): (r: Json)
    ensures forall key :: Lookup(fields, key).Some? ==> Get(r, key) == Lookup(fields, key)
    ensures Lookup(fields, "created_at").None? ==> Get(r, "created_at") == Some(JStr(loadedAt))
    ensures Lookup(fields, "updated_at").None? ==> Get(r, "updated_at") == Some(JStr(loadedAt))
    ensures Keys(r) == KeysOf(fields) + ["created_at", "updated_at"]
  {
    var stamps := [("created_at", JStr(loadedAt)), ("updated_at", JStr(loadedAt))];
    StampedLookups(fields, loadedAt, stamps);
    KeysOfAppend(fields, stamps);
    JObj(fields + stamps)
  }

  lemma StampedLookups(fields: seq<(string, Json)>, loadedAt: string, stamps: seq<(string, Json)>)
    requires stamps == [("created_at", JStr(loadedAt)), ("updated_at", JStr(loadedAt))]
    ensures forall key :: Lookup(fields, key).Some? ==> Lookup(fields + stamps, key) == Lookup(fields, key)
    ensures Lookup(fields, "created_at").None? ==> Lookup(fields + stamps, "created_at") == Some(JStr(loadedAt))
    ensures Lookup(fields, "updated_at").None? ==> Lookup(fields + stamps, "updated_at") == Some(JStr(loadedAt))
  {
    forall key | Lookup(fields, key).Some? ensures Lookup(fields + stamps, key) == Lookup(fields, key) {
      LookupAppend(fields, stamps, key);
    }
    GetOfTwo("created_at", JStr(loadedAt), "updated_at", JStr(loadedAt));
    if Lookup(fields, "created_at").None? {
      LookupSkip(fields, stamps, "created_at");
    }
    if Lookup(fields, "updated_at").None? {
      LookupSkip(fields, stamps, "updated_at");
    }
  }

  /** A mock record: its `id` first, then its other members, then the two stamps. */
  function Record(id: string, rest: seq<(string, Json)>, loadedAt: string): (r: Json)
    ensures Get(r, "id") == Some(JStr(id))
  {
    var fields := [("id", JStr(id))] + rest;
    assert Lookup(fields, "id") == Some(JStr(id));
    Stamped(fields, loadedAt)
  }

  /** `mockServices['user-service'].users`: John Doe with id 1 and Jane Smith with id 2. */
  function MockUsers(loadedAt: string): (r: seq<Json>)
    ensures |r| == 2
    ensures Get(r[0], "id") == Some(JStr("1")) && Get(r[1], "id") == Some(JStr("2"))
  {
    [ Record("1", [("name", JStr("John Doe")), ("email", JStr("john@example.com"))], loadedAt),
      Record("2", [("name", JStr("Jane Smith")), ("email", JStr("jane@example.com"))], loadedAt) ]
  }

  /** `mockServices['product-service'].products`: the laptop with id 1 and the smartphone
      with id 2. */
  function MockProducts(loadedAt: string): (r: seq<Json>)
    ensures |r| == 2
    ensures Get(r[0], "id") == Some(JStr("1")) && Get(r[1], "id") == Some(JStr("2"))
  {
    [ Record("1", [("name", JStr("Laptop")), ("description", JStr("High-performance laptop")),
                   ("price", JNum(129999, 2)), ("stock", JInt(50))], loadedAt),
      Record("2", [("name", JStr("Smartphone")), ("description", JStr("Latest smartphone model")),
                   ("price", JNum(89999, 2)), ("stock", JInt(100))], loadedAt) ]
  }

  /** `mockServices['order-service'].orders`: one delivered order with id 1. */
  function MockOrders(loadedAt: string): (r: seq<Json>)
    ensures |r| == 1
    ensures Get(r[0], "id") == Some(JStr("1"))
  {
    [ Record("1", [("user_id", JStr("1")),
                   ("items", JArr([JObj([("product_id", JStr("1")), ("quantity", JInt(1)), ("price", JNum(129999, 2))])])),
                   ("total_amount", JNum(129999, 2)), ("status", JStr("delivered")),
                   ("shipping_address", JStr("123 Main St, City, Country"))], loadedAt) ]
  }
}
