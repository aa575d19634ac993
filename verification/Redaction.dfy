/** The redaction of password members in a JSON tree before it goes on the console wire.

    The trees are serde_json values: an object's members are held in key order, each key once.
    Rebuilding an object collects the mapped members one by one into such a map. */
module Redaction {

  datatype Json =
    | Null
    | Boolean(b: bool)
    | Number(text: string)
    | Text(s: string)
    | Array(items: Items)
    | Object(members: Members)

  datatype Items = NoItem | Item(head: Json, tail: Items)
  datatype Members = NoMember | Member(key: string, value: Json, rest: Members)

  const PASSWORD := "password"
  const MARKER := Text("[REDACTED]")

  /** Lexicographic order of keys. */
  predicate Before(a: string, b: string) {
    b != [] && (a == [] || a[0] < b[0] || (a[0] == b[0] && Before(a[1..], b[1..])))
  }

  /** Keys are strictly increasing: the map an object is. */
  predicate Sorted(ms: Members) {
    ms.NoMember? || ms.rest.NoMember? || (Before(ms.key, ms.rest.key) && Sorted(ms.rest))
  }

  predicate WellFormed(v: Json) {
    match v
    case Array(items) => WellFormedItems(items)
    case Object(members) => Sorted(members) && WellFormedMembers(members)
    case _ => true
  }

  predicate WellFormedItems(items: Items) {
    items.NoItem? || (WellFormed(items.head) && WellFormedItems(items.tail))
  }

  predicate WellFormedMembers(ms: Members) {
    ms.NoMember? || (WellFormed(ms.value) && WellFormedMembers(ms.rest))
  }

  /** Inserting into the map: replaces the value of a present key. */
  function Insert(key: string, value: Json, ms: Members): Members {
    if ms.NoMember? then Member(key, value, NoMember)
    else if key == ms.key then Member(key, value, ms.rest)
    else if Before(key, ms.key) then Member(key, value, ms)
    else Member(ms.key, ms.value, Insert(key, value, ms.rest))
  }

  /** The redaction: the value of every member named `password` becomes the marker, everything
      else is rebuilt from its redacted parts. */
  function Redact(v: Json): Json
    decreases v, 0
  {
    match v
    case Object(members) => Object(RedactMembers(members, NoMember))
    case Array(items) => Array(RedactItems(items))
    case _ => v
  }

  function RedactItems(items: Items): Items
    decreases items, 0
  {
    match items
    case NoItem => NoItem
    case Item(head, tail) => Item(Redact(head), RedactItems(tail))
  }

  function RedactValue(key: string, value: Json): Json
    decreases value, 1
  {
    if key == PASSWORD then MARKER else Redact(value)
  }

  /** Collects the mapped members, in order, into the map built so far. */
  function RedactMembers(ms: Members, collected: Members): Members
    decreases ms, 0
  {
    match ms
    case NoMember => collected
    case Member(key, value, rest) => RedactMembers(rest, Insert(key, RedactValue(key, value), collected))
  }

  /** A command is serialized to its lossless tree and then redacted. */
  function SerializeRedacted<Command>(toValue: Command -> Json, command: Command): Json {
    Redact(toValue(command))
  }

  // ----- Independent descriptions -----

  /** Two trees agree everywhere except below members named `password`. */
  predicate Agree(v: Json, w: Json) {
    match v
    case Object(ms) => w.Object? && AgreeMembers(ms, w.members)
    case Array(items) => w.Array? && AgreeItems(items, w.items)
    case _ => v == w
  }

  predicate AgreeItems(a: Items, b: Items) {
    match a
    case NoItem => b.NoItem?
    case Item(head, tail) => b.Item? && Agree(head, b.head) && AgreeItems(tail, b.tail)
  }

  predicate AgreeMembers(a: Members, b: Members) {
    match a
    case NoMember => b.NoMember?
    case Member(key, value, rest) =>
      && b.Member? && b.key == key
      && (key == PASSWORD || Agree(value, b.value))
      && AgreeMembers(rest, b.rest)
  }

  /** Every member named `password` that redaction reaches already holds the marker. */
  predicate Marked(v: Json) {
    match v
    case Object(ms) => MarkedMembers(ms)
    case Array(items) => MarkedItems(items)
    case _ => true
  }

  predicate MarkedItems(items: Items) {
    items.NoItem? || (Marked(items.head) && MarkedItems(items.tail))
  }

  predicate MarkedMembers(ms: Members) {
    ms.NoMember? || ((if ms.key == PASSWORD then ms.value == MARKER else Marked(ms.value)) && MarkedMembers(ms.rest))
  }

  function Keys(ms: Members): seq<string> {
    match ms
    case NoMember => []
    case Member(key, _, rest) => [key] + Keys(rest)
  }

  function Length(items: Items): nat {
    match items
    case NoItem => 0
    case Item(_, tail) => 1 + Length(tail)
  }

  /** Objects, arrays and scalars stand in the same places, with the same keys in the same order and the
      same lengths, everywhere but below members named `password`. */
  predicate SameShape(v: Json, w: Json) {
    match v
    case Object(ms) => w.Object? && SameShapeMembers(ms, w.members)
    case Array(items) => w.Array? && SameShapeItems(items, w.items)
    case _ => !w.Object? && !w.Array?
  }

  predicate SameShapeItems(a: Items, b: Items) {
    match a
    case NoItem => b.NoItem?
    case Item(head, tail) => b.Item? && SameShape(head, b.head) && SameShapeItems(tail, b.tail)
  }

  predicate SameShapeMembers(a: Members, b: Members) {
    match a
    case NoMember => b.NoMember?
    case Member(key, value, rest) =>
      b.Member? && b.key == key && (key == PASSWORD || SameShape(value, b.value)) && SameShapeMembers(rest, b.rest)
  }

  // ----- Collecting a sorted object gives back the same keys in the same order -----

  function Append(a: Members, b: Members): Members {
    match a
    case NoMember => b
    case Member(key, value, rest) => Member(key, value, Append(rest, b))
  }

  /** The members with their values redacted where they stand. */
  function MapMembers(ms: Members): Members {
    match ms
    case NoMember => NoMember
    case Member(key, value, rest) => Member(key, RedactValue(key, value), MapMembers(rest))
  }

  lemma {:induction false} BeforeIrreflexive(a: string)
    ensures !Before(a, a)
  {
    if a != [] {
      BeforeIrreflexive(a[1..]);
    }
  }

  lemma {:induction false} BeforeTransitive(a: string, b: string, c: string)
    requires Before(a, b) && Before(b, c)
    ensures Before(a, c)
  {
    if a != [] && b != [] && a[0] == b[0] && b[0] == c[0] {
      BeforeTransitive(a[1..], b[1..], c[1..]);
    }
  }

  lemma BeforeAsymmetric(a: string, b: string)
    requires Before(a, b)
    ensures a != b && !Before(b, a)
  {
    if Before(b, a) {
      BeforeTransitive(a, b, a);
    }
    BeforeIrreflexive(a);
  }

  /** All keys of `ms` come before `key`. */
  predicate AllBefore(ms: Members, key: string) {
    ms.NoMember? || (Before(ms.key, key) && AllBefore(ms.rest, key))
  }

  lemma {:induction false} InsertLast(key: string, value: Json, ms: Members)
    requires AllBefore(ms, key)
    ensures Insert(key, value, ms) == Append(ms, Member(key, value, NoMember))
  {
    if ms.Member? {
      BeforeAsymmetric(ms.key, key);
      InsertLast(key, value, ms.rest);
    }
  }

  lemma {:induction false} AllBeforeExtends(ms: Members, key: string, value: Json, next: string)
    requires AllBefore(ms, key) && Before(key, next)
    ensures AllBefore(Append(ms, Member(key, value, NoMember)), next)
  {
    if ms.Member? {
      BeforeTransitive(ms.key, key, next);
      AllBeforeExtends(ms.rest, key, value, next);
    }
  }

  lemma {:induction false} AppendAssociates(a: Members, b: Members, c: Members)
    ensures Append(Append(a, b), c) == Append(a, Append(b, c))
  {
    if a.Member? {
      AppendAssociates(a.rest, b, c);
    }
  }

  lemma {:induction false} CollectingKeepsOrder(ms: Members, collected: Members)
    requires Sorted(ms) && (ms.Member? ==> AllBefore(collected, ms.key))
    ensures RedactMembers(ms, collected) == Append(collected, MapMembers(ms))
  {
    match ms
    case NoMember =>
      AppendNothing(collected);
    case Member(key, value, rest) =>
      var one := Member(key, RedactValue(key, value), NoMember);
      InsertLast(key, RedactValue(key, value), collected);
      if rest.Member? {
        AllBeforeExtends(collected, key, RedactValue(key, value), rest.key);
      }
      CollectingKeepsOrder(rest, Append(collected, one));
      AppendAssociates(collected, one, MapMembers(rest));
  }

  lemma {:induction false} AppendNothing(a: Members)
    ensures Append(a, NoMember) == a
  {
    if a.Member? {
      AppendNothing(a.rest);
    }
  }

  /** Redacting an object changes values only: rebuilding the map loses and reorders nothing. */
  lemma RedactObject(ms: Members)
    requires Sorted(ms)
    ensures RedactMembers(ms, NoMember) == MapMembers(ms)
  {
    CollectingKeepsOrder(ms, NoMember);
  }

  lemma {:induction false} MapKeepsKeys(ms: Members)
    ensures Keys(MapMembers(ms)) == Keys(ms)
    ensures Sorted(ms) ==> Sorted(MapMembers(ms))
  {
    if ms.Member? {
      MapKeepsKeys(ms.rest);
    }
  }

  lemma {:induction false} RedactionKeepsWellFormed(v: Json)
    requires WellFormed(v)
    ensures WellFormed(Redact(v))
  {
    match v
    case Object(ms) =>
      RedactObject(ms);
      MapKeepsKeys(ms);
      MembersKeepWellFormed(ms);
    case Array(items) => ItemsKeepWellFormed(items);
    case _ =>
  }

  lemma {:induction false} ItemsKeepWellFormed(items: Items)
    requires WellFormedItems(items)
    ensures WellFormedItems(RedactItems(items))
  {
    if items.Item? {
      RedactionKeepsWellFormed(items.head);
      ItemsKeepWellFormed(items.tail);
    }
  }

  lemma {:induction false} MembersKeepWellFormed(ms: Members)
    requires WellFormedMembers(ms)
    ensures WellFormedMembers(MapMembers(ms))
  {
    if ms.Member? {
      RedactionKeepsWellFormed(ms.value);
      MembersKeepWellFormed(ms.rest);
    }
  }

  // ----- The canonical form -----

  /** Two trees have the same redaction exactly when they agree up to password values. */
  lemma {:induction false} RedactionIsCanonical(v: Json, w: Json)
    requires WellFormed(v) && WellFormed(w)
    ensures Redact(v) == Redact(w) <==> Agree(v, w)
  {
    match v
    case Object(ms) =>
      RedactObject(ms);
      if w.Object? {
        RedactObject(w.members);
        MembersAreCanonical(ms, w.members);
      }
    case Array(items) =>
      if w.Array? {
        ItemsAreCanonical(items, w.items);
      }
    case _ =>
  }

  lemma {:induction false} ItemsAreCanonical(a: Items, b: Items)
    requires WellFormedItems(a) && WellFormedItems(b)
    ensures RedactItems(a) == RedactItems(b) <==> AgreeItems(a, b)
  {
    if a.Item? && b.Item? {
      RedactionIsCanonical(a.head, b.head);
      ItemsAreCanonical(a.tail, b.tail);
    }
  }

  lemma {:induction false} MembersAreCanonical(a: Members, b: Members)
    requires WellFormedMembers(a) && WellFormedMembers(b)
    ensures MapMembers(a) == MapMembers(b) <==> AgreeMembers(a, b)
  {
    if a.Member? && b.Member? {
      RedactionIsCanonical(a.value, b.value);
      MembersAreCanonical(a.rest, b.rest);
    }
  }

  /** Redaction leaves a tree alone exactly when its password members already hold the marker. */
  lemma {:induction false} FixedExactlyWhenMarked(v: Json)
    requires WellFormed(v)
    ensures Redact(v) == v <==> Marked(v)
  {
    match v
    case Object(ms) =>
      RedactObject(ms);
      MembersFixedExactlyWhenMarked(ms);
    case Array(items) => ItemsFixedExactlyWhenMarked(items);
    case _ =>
  }

  lemma {:induction false} ItemsFixedExactlyWhenMarked(items: Items)
    requires WellFormedItems(items)
    ensures RedactItems(items) == items <==> MarkedItems(items)
  {
    if items.Item? {
      FixedExactlyWhenMarked(items.head);
      ItemsFixedExactlyWhenMarked(items.tail);
    }
  }

  lemma {:induction false} MembersFixedExactlyWhenMarked(ms: Members)
    requires WellFormedMembers(ms)
    ensures MapMembers(ms) == ms <==> MarkedMembers(ms)
  {
    if ms.Member? {
      FixedExactlyWhenMarked(ms.value);
      MembersFixedExactlyWhenMarked(ms.rest);
    }
  }

  lemma {:induction false} RedactedIsMarked(v: Json)
    requires WellFormed(v)
    ensures Marked(Redact(v)) && Agree(v, Redact(v))
  {
    match v
    case Object(ms) =>
      RedactObject(ms);
      MappedAreMarked(ms);
    case Array(items) => RedactedItemsAreMarked(items);
    case _ =>
  }

  lemma {:induction false} RedactedItemsAreMarked(items: Items)
    requires WellFormedItems(items)
    ensures MarkedItems(RedactItems(items)) && AgreeItems(items, RedactItems(items))
  {
    if items.Item? {
      RedactedIsMarked(items.head);
      RedactedItemsAreMarked(items.tail);
    }
  }

  lemma {:induction false} MappedAreMarked(ms: Members)
    requires WellFormedMembers(ms)
    ensures MarkedMembers(MapMembers(ms)) && AgreeMembers(ms, MapMembers(ms))
  {
    if ms.Member? {
      RedactedIsMarked(ms.value);
      MappedAreMarked(ms.rest);
    }
  }

  lemma {:induction false} AgreeingHaveOneShape(v: Json, w: Json)
    requires Agree(v, w)
    ensures SameShape(v, w)
  {
    match v
    case Object(ms) => AgreeingMembersHaveOneShape(ms, w.members);
    case Array(items) => AgreeingItemsHaveOneShape(items, w.items);
    case _ =>
  }

  lemma {:induction false} AgreeingItemsHaveOneShape(a: Items, b: Items)
    requires AgreeItems(a, b)
    ensures SameShapeItems(a, b)
  {
    if a.Item? {
      AgreeingHaveOneShape(a.head, b.head);
      AgreeingItemsHaveOneShape(a.tail, b.tail);
    }
  }

  lemma {:induction false} AgreeingMembersHaveOneShape(a: Members, b: Members)
    requires AgreeMembers(a, b)
    ensures SameShapeMembers(a, b)
  {
    if a.Member? {
      if a.key != PASSWORD {
        AgreeingHaveOneShape(a.value, b.value);
      }
      AgreeingMembersHaveOneShape(a.rest, b.rest);
    }
  }

  /** Redaction keeps, at every depth it reaches, each object's keys and their order and each array's
      length. */
  lemma RedactionKeepsShape(v: Json)
    requires WellFormed(v)
    ensures SameShape(v, Redact(v))
  {
    RedactedIsMarked(v);
    AgreeingHaveOneShape(v, Redact(v));
  }

  /** What one shape means at an object and at an array: the same keys in the same order, the same length. */
  lemma {:induction false} ShapeIsKeysAndLengths(v: Json, w: Json)
    requires SameShape(v, w)
    ensures v.Object? ==> w.Object? && Keys(w.members) == Keys(v.members)
    ensures v.Array? ==> w.Array? && Length(w.items) == Length(v.items)
  {
    if v.Object? {
      ShapeIsKeys(v.members, w.members);
    } else if v.Array? {
      ShapeIsLength(v.items, w.items);
    }
  }

  lemma {:induction false} ShapeIsKeys(a: Members, b: Members)
    requires SameShapeMembers(a, b)
    ensures Keys(a) == Keys(b)
  {
    if a.Member? {
      ShapeIsKeys(a.rest, b.rest);
    }
  }

  lemma {:induction false} ShapeIsLength(a: Items, b: Items)
    requires SameShapeItems(a, b)
    ensures Length(a) == Length(b)
  {
    if a.Item? {
      ShapeIsLength(a.tail, b.tail);
    }
  }

  /** Redacting twice is redacting once: a redacted tree is marked, so it is a fixed point. */
  lemma RedactionIsIdempotent(v: Json)
    requires WellFormed(v)
    ensures Redact(Redact(v)) == Redact(v)
  {
    RedactionKeepsWellFormed(v);
    RedactedIsMarked(v);
    FixedExactlyWhenMarked(Redact(v));
  }

  /** The wire form of a command tells two commands apart exactly when they differ outside their
      password members; every password on it is the marker. */
  lemma WireHidesExactlyPasswords<Command>(toValue: Command -> Json, c: Command, d: Command)
    requires WellFormed(toValue(c)) && WellFormed(toValue(d))
    ensures SerializeRedacted(toValue, c) == SerializeRedacted(toValue, d) <==> Agree(toValue(c), toValue(d))
    ensures Marked(SerializeRedacted(toValue, c))
  {
    RedactionIsCanonical(toValue(c), toValue(d));
    RedactedIsMarked(toValue(c));
  }
}
