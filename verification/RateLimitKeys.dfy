/** How a rate limit rule names the counters of an identity, and why two identities share a counter only when the rule
    cannot tell them apart. */
module RateLimitKeys {
  import opened Common
  import opened Keys
  import RateLimit

  datatype Dimension = Global | TenantId | UserId | IpAddress | Route

  datatype Identity = Identity(
    tenantId: Option<string>,
    userId: Option<string>,
    ipAddress: Option<string>,
    route: Option<string>)

  /** The part of a rule that its keys depend on. */
  datatype Naming = Naming(name: string, dimensions: seq<Dimension>)

  predicate ValidNaming(n: Naming) {
    Segment(n.name) && n.dimensions != []
  }

  function Name(d: Dimension): string {
    match d
    case Global => "global"
    case TenantId => "tenant_id"
    case UserId => "user_id"
    case IpAddress => "ip_address"
    case Route => "route"
  }

  function ValueFor(identity: Identity, d: Dimension): Result<string> {
    var value := match d
      case Global => Some("all")
      case TenantId => identity.tenantId
      case UserId => identity.userId
      case IpAddress => identity.ipAddress
      case Route => identity.route;
    if value.None? || (!d.Global? && Blank(value.value)) then Err(ValidationError) else Ok(value.value)
  }

  function Part(d: Dimension, value: string): string {
    Name(d) + "=" + value
  }

  function PartsFor(dimensions: seq<Dimension>, identity: Identity): (parts: Result<seq<string>>)
    ensures parts.Ok? <==> forall d | d in dimensions :: ValueFor(identity, d).Ok?
    ensures parts.Ok? ==> |parts.value| == |dimensions|
    ensures parts.Ok? ==> forall i | 0 <= i < |dimensions| :: parts.value[i] == Part(dimensions[i], ValueFor(identity, dimensions[i]).value)
  {
    if dimensions == [] then Ok([])
    else
      var first := ValueFor(identity, dimensions[0]);
      var rest := PartsFor(dimensions[1..], identity);
      if first.Err? then Err(first.error)
      else if rest.Err? then rest
      else Ok([Part(dimensions[0], first.value)] + rest.value)
  }

  function KeyFor(n: Naming, identity: Identity): Result<string> {
    var parts := PartsFor(n.dimensions, identity);
    if parts.Err? then Err(parts.error) else CacheKey(["rate", n.name] + parts.value)
  }

  lemma PartInjective(d: Dimension, e: Dimension, v: string, w: string)
    requires Part(d, v) == Part(e, w)
    ensures d == e && v == w
  {
    assert Name(d)[0] == Part(d, v)[0] == Part(e, w)[0] == Name(e)[0];
    assert v == Part(d, v)[|Name(d)| + 1..];
    assert w == Part(e, w)[|Name(e)| + 1..];
  }

  lemma PartIsSegment(d: Dimension, v: string)
    ensures Segment(Part(d, v)) <==> NoColon(v)
  {
    var p := Part(d, v);
    assert p[0] == Name(d)[0] && !IsSpace(p[0]);
    assert v == p[|Name(d)| + 1..];
    assert p[..|Name(d)| + 1] == Name(d) + "=" && NoColon(Name(d) + "=");
    assert p == p[..|Name(d)| + 1] + v;
  }

  /** A valid rule has a key for an identity exactly when each of its dimensions has a value that is not blank and
      holds no ':'. An IPv6 address has none. */
  lemma KeyExistsIff(n: Naming, identity: Identity)
    requires ValidNaming(n)
    ensures KeyFor(n, identity).Ok? <==>
            forall d | d in n.dimensions :: ValueFor(identity, d).Ok? && NoColon(ValueFor(identity, d).value)
  {
    hide Part, PartsFor, Segment, NoColon, Blank, ValueFor;
    var parts := PartsFor(n.dimensions, identity);
    if parts.Ok? {
      var segments := ["rate", n.name] + parts.value;
      NamespaceIsSegment();
      forall i | 0 <= i < |n.dimensions|
        ensures Segment(segments[i + 2]) <==> NoColon(ValueFor(identity, n.dimensions[i]).value)
      {
        PartIsSegment(n.dimensions[i], ValueFor(identity, n.dimensions[i]).value);
      }
    }
  }

  lemma NamespaceIsSegment()
    ensures Segment("rate")
  {
    assert !IsSpace("rate"[0]);
  }

  /** Two identities have one key under two rules exactly when the rules have the same name and dimensions and the
      identities the same value in each of them. */
  lemma KeyIdentifies(a: Naming, b: Naming, s: Identity, t: Identity)
    requires KeyFor(a, s).Ok? && KeyFor(b, t).Ok?
    ensures KeyFor(a, s) == KeyFor(b, t) <==> a == b && forall d | d in a.dimensions :: ValueFor(s, d) == ValueFor(t, d)
  {
    hide CacheKey, PartsFor, Part, ValueFor;
    var p, q := PartsFor(a.dimensions, s).value, PartsFor(b.dimensions, t).value;
    assert a == b && (forall d | d in a.dimensions :: ValueFor(s, d) == ValueFor(t, d)) ==> p == q;
    if KeyFor(a, s) == KeyFor(b, t) {
      CacheKeyInjective(["rate", a.name] + p, ["rate", b.name] + q);
      assert p == (["rate", a.name] + p)[2..] == (["rate", b.name] + q)[2..] == q;
      assert a.name == (["rate", a.name] + p)[1] == b.name;
      forall i | 0 <= i < |a.dimensions|
        ensures a.dimensions[i] == b.dimensions[i]
        ensures ValueFor(s, a.dimensions[i]).value == ValueFor(t, a.dimensions[i]).value
      {
        PartInjective(a.dimensions[i], b.dimensions[i], ValueFor(s, a.dimensions[i]).value, ValueFor(t, b.dimensions[i]).value);
      }
      assert a.dimensions == b.dimensions;
    }
  }

  /** No counter serves two buckets, two rules of different name or dimensions, or two identities that differ in a
      dimension of the rule. */
  lemma CountersIdentify(a: Naming, b: Naming, s: Identity, t: Identity, i: int, j: int)
    requires KeyFor(a, s).Ok? && KeyFor(b, t).Ok?
    ensures RateLimit.BucketKey(KeyFor(a, s).value, i) == RateLimit.BucketKey(KeyFor(b, t).value, j) <==>
            i == j && a == b && forall d | d in a.dimensions :: ValueFor(s, d) == ValueFor(t, d)
  {
    hide RateLimit.BucketKey, KeyFor, ValueFor;
    KeyIdentifies(a, b, s, t);
    if RateLimit.BucketKey(KeyFor(a, s).value, i) == RateLimit.BucketKey(KeyFor(b, t).value, j) {
      RateLimit.BucketKeyInjective(KeyFor(a, s).value, KeyFor(b, t).value, i, j);
    }
  }
}
