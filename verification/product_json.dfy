/** `Serialize for Product`: a six-member object of the primitives, with the
    update stamp written before the creation stamp. */
module ProductJson {
  import opened Wrappers
  import opened Json
  import opened UuidText
  import opened Id
  import opened Name
  import opened Price
  import opened Currency
  import opened Timestamp
  import opened Product

  function ToJson(p: Product): (ms: seq<Member>)
    ensures |ms| == 6
  {
    [ ("id", JString(Id.ToPrimitive(p.id))),
      ("name", JString(Name.ToPrimitive(p.name))),
      ("price", JNumber(Price.ToPrimitive(p.price) as int)),
      ("currency", JString(Currency.ToPrimitive(p.currency))),
      ("__updated_at__", JInstant(Timestamp.ToPrimitive(p.updatedAt))),
      ("__created_at__", JInstant(Timestamp.ToPrimitive(p.createdAt))) ]
  }

  /** The member names, in the order they are written. */
  lemma ToJsonLayout(p: Product)
    ensures Keys(ToJson(p)) == ["id", "name", "price", "currency", "__updated_at__", "__created_at__"]
    ensures Find(ToJson(p), "__updated_at__") == Some(JInstant(p.updatedAt.instant))
    ensures Find(ToJson(p), "__created_at__") == Some(JInstant(p.createdAt.instant))
  {
    var ms := ToJson(p);
    assert ms[1..][1..][1..][1..] == ms[4..];
    assert ms[4..][1..] == ms[5..];
    assert ms[4..][0] == ("__updated_at__", JInstant(p.updatedAt.instant));
    assert ms[5..][0] == ("__created_at__", JInstant(p.createdAt.instant));
  }

  /** The serialised form identifies the product: distinct products never
      serialise alike. */
  lemma ToJsonInjective(a: Product, b: Product)
    requires ToJson(a) == ToJson(b)
    ensures a == b
  {
    assert ToJson(a)[0] == ToJson(b)[0];
    ToPrimitiveInjective(a.id, b.id);
    assert ToJson(a)[3] == ToJson(b)[3];
    assert Currency.ToPrimitive(a.currency) == Currency.ToPrimitive(b.currency);
    assert a.currency == b.currency by {
      Currency.DisplayRoundTrip(a.currency);
      Currency.DisplayRoundTrip(b.currency);
    }
  }
}
