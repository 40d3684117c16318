/**
 Field mapping (src/pipeline/mapper.rs). The mappings sit in a hash map and are
 applied in whatever order it yields them; the theorem says exactly when that
 order cannot be seen in the result.
 */
module FieldMapper {
  import opened Wrappers
  import opened Events
  import opened Text

  type Fields = map<string, Json>

  datatype FieldMapping =
    | Simple(target: string)
    | Complex(to: Option<string>, default: Option<Json>, sources: Option<seq<string>>, separator: Option<string>, path: Option<string>)

  /** What happens to fields no mapping uses. */
  datatype Strategy = Include | Exclude | Prefix(prefix: string)

  function StrategyOf(name: string, prefix: Option<string>): Strategy {
    if name == "exclude" then Exclude else if name == "prefix" then Prefix(prefix.GetOr("_")) else Include
  }

  /** One call of `map_fields`; `render` is the text JSON rendering gives arrays, objects and numbers with a fraction. */
  datatype Job = Job(data: Fields, mappings: map<string, FieldMapping>, strategy: Strategy, render: Json -> string)

  // ----- what one mapping contributes

  datatype Field = Field(target: string, value: Json)

  datatype Contribution = Contribution(written: Option<Field>, used: set<string>)

  function ValueToString(render: Json -> string, value: Json): string {
    match value
    case JString(s) => s
    case JInt(n) => Decimal(n)
    case JBool(b) => if b then "true" else "false"
    case JNull => ""
    case _ => render(value)
  }

  function Join(parts: seq<string>, separator: string): string {
    if parts == [] then ""
    else if |parts| == 1 then parts[0]
    else Join(parts[..|parts| - 1], separator) + separator + parts[|parts| - 1]
  }

  /** The texts of the sources that are there, in order. */
  function Texts(render: Json -> string, data: Fields, sources: seq<string>): seq<string> {
    if sources == [] then []
    else
      var before := Texts(render, data, sources[..|sources| - 1]);
      var last := sources[|sources| - 1];
      if last in data then before + [ValueToString(render, data[last])] else before
  }

  /** `parse::<usize>`. */
  function ParseIndex(part: string): Option<nat> {
    var digits := if |part| > 1 && part[0] == '+' then part[1..] else part;
    if IsDigits(digits) && 0 <= DigitsValue(digits) < 0x1_0000_0000_0000_0000 then Some(DigitsValue(digits)) else None
  }

  /** One step into a nested value: a field of an object or an item of an array. */
  function Descend(value: Json, part: string): Option<Json> {
    match value
    case JObject(fields) => if part in fields then Some(fields[part]) else None
    case JArray(items) =>
      var index := ParseIndex(part);
      if index.Some? && index.value < |items| then Some(items[index.value]) else None
    case _ => None
  }

  function DescendAll(value: Json, parts: seq<string>): Option<Json> {
    if parts == [] then Some(value)
    else
      match DescendAll(value, parts[..|parts| - 1])
      case None => None
      case Some(v) => Descend(v, parts[|parts| - 1])
  }

  function ExtractNested(data: Fields, base: string, path: string): Option<Json> {
    if base in data then DescendAll(data[base], Split(path, '.')) else None
  }

  function Contribute(j: Job, source: string): Contribution {
    if source !in j.mappings then Contribution(None, {})
    else
      match j.mappings[source]
      case Simple(target) =>
        if source in j.data then Contribution(Some(Field(target, j.data[source])), {source}) else Contribution(None, {})
      case Complex(None, _, _, _, _) => Contribution(None, {})
      case Complex(Some(target), _, Some(sources), separator, _) =>
        var texts := Texts(j.render, j.data, sources);
        Contribution(
          if texts == [] then None else Some(Field(target, JString(Join(texts, separator.GetOr(","))))),
          set s | s in sources && s in j.data)
      case Complex(Some(target), _, None, _, Some(path)) =>
        (match ExtractNested(j.data, source, path)
         case Some(v) => Contribution(Some(Field(target, v)), {source})
         case None => Contribution(None, {}))
      case Complex(Some(target), default, None, _, None) =>
        Contribution(Some(Field(target, if source in j.data then j.data[source] else default.GetOr(JNull))), {source})
  }

  // ----- the result for one order

  predicate IsOrder(j: Job, order: seq<string>) {
    multiset(order) == multiset(j.mappings.Keys)
  }

  function Overlay(fields: Fields, written: Option<Field>): Fields {
    if written.Some? then fields[written.value.target := written.value.value] else fields
  }

  /** The mapped fields, later mappings overwriting earlier ones. */
  function Written(j: Job, order: seq<string>): Fields {
    if order == [] then map[]
    else
      Overlay(Written(j, order[..|order| - 1]), Contribute(j, order[|order| - 1]).written)
  }

  function UsedBy(j: Job, sources: set<string>): set<string> {
    set s, u | s in sources && u in Contribute(j, s).used :: u
  }

  function Unmapped(j: Job): Fields {
    map k | k in j.data && k !in UsedBy(j, j.mappings.Keys) :: j.data[k]
  }

  function Prefixed(prefix: string, fields: Fields): Fields {
    map t | t in set k | k in fields :: prefix + k :: fields[t[|prefix|..]]
  }

  /** A mapped field beats an unmapped one of its name, but a prefixed one beats a mapped one. */
  function Finish(strategy: Strategy, written: Fields, unmapped: Fields): Fields {
    match strategy
    case Include => unmapped + written
    case Exclude => written
    case Prefix(prefix) => written + Prefixed(prefix, unmapped)
  }

  function MappedFields(j: Job, order: seq<string>): Fields {
    Finish(j.strategy, Written(j, order), Unmapped(j))
  }

  // ----- the order of the mappings

  predicate Writes(j: Job, source: string, target: string) {
    var w := Contribute(j, source).written;
    w.Some? && w.value.target == target
  }

  predicate WritesValue(j: Job, source: string, target: string, value: Json) {
    Contribute(j, source).written == Some(Field(target, value))
  }

  /** A mapped field has the value of the last mapping in the order that writes it. */
  ghost predicate LastWriter(j: Job, order: seq<string>, target: string, value: Json, i: int) {
    && 0 <= i < |order| && WritesValue(j, order[i], target, value)
    && forall k | i < k < |order| :: !Writes(j, order[k], target)
  }

  lemma {:induction false} WrittenIsLast(j: Job, order: seq<string>, target: string)
    ensures target in Written(j, order) <==> exists i :: 0 <= i < |order| && Writes(j, order[i], target)
    ensures target in Written(j, order) ==> exists i :: LastWriter(j, order, target, Written(j, order)[target], i)
  {
    if order != [] {
      var n := |order| - 1;
      var before := order[..n];
      WrittenIsLast(j, before, target);
      if Writes(j, order[n], target) {
        assert LastWriter(j, order, target, Written(j, order)[target], n);
      } else if target in Written(j, before) {
        var i :| LastWriter(j, before, target, Written(j, before)[target], i);
        assert LastWriter(j, order, target, Written(j, order)[target], i);
      }
    }
  }

  /** A prefixed field overwrites this target whatever was mapped to it. */
  predicate Overwritten(j: Job, target: string) {
    && j.strategy.Prefix? && |j.strategy.prefix| <= |target|
    && target[..|j.strategy.prefix|] == j.strategy.prefix && target[|j.strategy.prefix|..] in Unmapped(j)
  }

  /** Two mappings write different values to one target, and it shows. */
  predicate Conflict(j: Job, a: string, b: string) {
    var x, y := Contribute(j, a).written, Contribute(j, b).written;
    x.Some? && y.Some? && x.value.target == y.value.target && x.value.value != y.value.value && !Overwritten(j, x.value.target)
  }

  ghost predicate SameForEveryOrder(j: Job) {
    forall o, p | IsOrder(j, o) && IsOrder(j, p) :: MappedFields(j, o) == MappedFields(j, p)
  }

  lemma PrefixedAt(prefix: string, fields: Fields, target: string)
    ensures target in Prefixed(prefix, fields)
       <==> |prefix| <= |target| && target[..|prefix|] == prefix && target[|prefix|..] in fields
    ensures target in Prefixed(prefix, fields) ==> Prefixed(prefix, fields)[target] == fields[target[|prefix|..]]
  {
    if |prefix| <= |target| && target[..|prefix|] == prefix {
      assert target == prefix + target[|prefix|..];
    }
    forall k | k in fields
      ensures (prefix + k)[..|prefix|] == prefix && (prefix + k)[|prefix|..] == k
    {
    }
  }

  lemma OrderMembers(j: Job, order: seq<string>, s: string)
    requires IsOrder(j, order)
    ensures s in order <==> s in j.mappings
  {
    assert s in order <==> s in multiset(order);
  }

  /** Without a conflict two orders agree on every target. */
  lemma OrdersAgreeAt(j: Job, o: seq<string>, p: seq<string>, target: string)
    requires IsOrder(j, o) && IsOrder(j, p) && forall a, b | a in j.mappings && b in j.mappings :: !Conflict(j, a, b)
    ensures target in Written(j, o) <==> target in Written(j, p)
    ensures target in Written(j, o) && !Overwritten(j, target) ==> Written(j, o)[target] == Written(j, p)[target]
  {
    WrittenIsLast(j, o, target);
    WrittenIsLast(j, p, target);
    forall i | 0 <= i < |o| ensures o[i] in p { OrderMembers(j, o, o[i]); OrderMembers(j, p, o[i]); }
    forall i | 0 <= i < |p| ensures p[i] in o { OrderMembers(j, o, p[i]); OrderMembers(j, p, p[i]); }
    if target in Written(j, o) && target in Written(j, p) && !Overwritten(j, target) {
      var i :| LastWriter(j, o, target, Written(j, o)[target], i);
      var k :| LastWriter(j, p, target, Written(j, p)[target], k);
      OrderMembers(j, o, o[i]);
      OrderMembers(j, p, p[k]);
      assert !Conflict(j, o[i], p[k]);
    }
  }

  /** And so after the unmapped fields are added. */
  lemma FinishedAgreeAt(j: Job, o: seq<string>, p: seq<string>, t: string)
    requires IsOrder(j, o) && IsOrder(j, p) && forall a, b | a in j.mappings && b in j.mappings :: !Conflict(j, a, b)
    ensures var x, y := MappedFields(j, o), MappedFields(j, p);
            (t in x <==> t in y) && (t in x ==> x[t] == y[t])
  {
    OrdersAgreeAt(j, o, p, t);
    FinishAt(j.strategy, Written(j, o), Unmapped(j), t);
    FinishAt(j.strategy, Written(j, p), Unmapped(j), t);
    if j.strategy.Prefix? {
      PrefixedAt(j.strategy.prefix, Unmapped(j), t);
    }
  }

  /** Which of the two sides a field of the result comes from. */
  lemma FinishAt(strategy: Strategy, written: Fields, unmapped: Fields, t: string)
    ensures var result := Finish(strategy, written, unmapped);
            match strategy
            case Include =>
              && (t in result <==> t in written || t in unmapped)
              && (t in result ==> result[t] == if t in written then written[t] else unmapped[t])
            case Exclude => result == written
            case Prefix(prefix) =>
              var prefixed := Prefixed(prefix, unmapped);
              && (t in result <==> t in written || t in prefixed)
              && (t in result ==> result[t] == if t in prefixed then prefixed[t] else written[t])
  {
  }

  lemma OrdersAgree(j: Job, o: seq<string>, p: seq<string>)
    requires IsOrder(j, o) && IsOrder(j, p) && forall a, b | a in j.mappings && b in j.mappings :: !Conflict(j, a, b)
    ensures MappedFields(j, o) == MappedFields(j, p)
  {
    var x, y := MappedFields(j, o), MappedFields(j, p);
    forall t
      ensures t in x <==> t in y
      ensures t in x && t in y ==> x[t] == y[t]
    {
      FinishedAgreeAt(j, o, p, t);
    }
  }

  lemma OrderEndingIn(keys: set<string>, last: string) returns (order: seq<string>)
    requires last in keys
    ensures multiset(order) == multiset(keys) && order != [] && order[|order| - 1] == last
  {
    if keys == {last} {
      order := [last];
    } else {
      var other :| other in keys && other != last;
      var rest := OrderEndingIn(keys - {other}, last);
      order := [other] + rest;
      assert multiset(keys) == multiset(keys - {other}) + multiset{other};
    }
  }

  /** With `a` last in the order, a target it writes has its value. */
  lemma LastOneWins(j: Job, order: seq<string>, a: string)
    requires order != [] && order[|order| - 1] == a
    requires Contribute(j, a).written.Some? && !Overwritten(j, Contribute(j, a).written.value.target)
    ensures var f := Contribute(j, a).written.value; f.target in MappedFields(j, order) && MappedFields(j, order)[f.target] == f.value
  {
  }

  /** The order shows exactly when two mappings conflict. */
  lemma OrderIsInvisibleExactlyWhen(j: Job)
    ensures SameForEveryOrder(j) <==> forall a, b | a in j.mappings && b in j.mappings :: !Conflict(j, a, b)
  {
    if forall a, b | a in j.mappings && b in j.mappings :: !Conflict(j, a, b) {
      forall o, p | IsOrder(j, o) && IsOrder(j, p)
        ensures MappedFields(j, o) == MappedFields(j, p)
      {
        OrdersAgree(j, o, p);
      }
    } else {
      var a, b :| a in j.mappings && b in j.mappings && Conflict(j, a, b);
      var o := OrderEndingIn(j.mappings.Keys, a);
      var p := OrderEndingIn(j.mappings.Keys, b);
      LastOneWins(j, o, a);
      LastOneWins(j, p, b);
      assert IsOrder(j, o) && IsOrder(j, p) && MappedFields(j, o) != MappedFields(j, p);
    }
  }

  /** Two fields renamed to one: whichever the hash map yields last is kept. */
  lemma SharedTargetShowsOrder(render: Json -> string)
    ensures var mappings := map["a" := Simple("t"), "b" := Simple("t")];
            !SameForEveryOrder(Job(map["a" := JInt(1), "b" := JInt(2)], mappings, Exclude, render))
  {
    var mappings := map["a" := Simple("t"), "b" := Simple("t")];
    var j := Job(map["a" := JInt(1), "b" := JInt(2)], mappings, Exclude, render);
    assert "a" in j.mappings && "b" in j.mappings && Conflict(j, "a", "b");
    OrderIsInvisibleExactlyWhen(j);
  }

  function TargetOf(m: FieldMapping): Option<string> {
    match m
    case Simple(target) => Some(target)
    case Complex(to, _, _, _, _) => to
  }

  lemma WritesItsTarget(j: Job, s: string)
    requires Contribute(j, s).written.Some?
    ensures s in j.mappings && TargetOf(j.mappings[s]) == Some(Contribute(j, s).written.value.target)
  {
  }

  /** In particular pairwise distinct targets suffice. */
  lemma DistinctTargetsSuffice(j: Job)
    requires forall a, b | a in j.mappings && b in j.mappings && a != b && TargetOf(j.mappings[a]).Some? ::
               TargetOf(j.mappings[a]) != TargetOf(j.mappings[b])
    ensures SameForEveryOrder(j)
  {
    forall a, b | a in j.mappings && b in j.mappings && Conflict(j, a, b)
      ensures false
    {
      WritesItsTarget(j, a);
      WritesItsTarget(j, b);
    }
    OrderIsInvisibleExactlyWhen(j);
  }

  /** One field of the result: what a prefixed field, a mapping or the data itself put there, in this order of precedence. */
  lemma ResultAt(j: Job, order: seq<string>, t: string)
    requires IsOrder(j, order)
    ensures var r := MappedFields(j, order);
            if Overwritten(j, t) then t in r && r[t] == j.data[t[|j.strategy.prefix|..]]
            else if exists s :: s in j.mappings && Writes(j, s, t)
              then t in r && exists s :: s in j.mappings && WritesValue(j, s, t, r[t])
            else if j.strategy == Include && t in Unmapped(j) then t in r && r[t] == j.data[t]
            else t !in r
  {
    WrittenIsLast(j, order, t);
    forall s ensures s in order <==> s in j.mappings { OrderMembers(j, order, s); }
    if j.strategy.Prefix? {
      PrefixedAt(j.strategy.prefix, Unmapped(j), t);
    }
    if t in Written(j, order) {
      var i :| LastWriter(j, order, t, Written(j, order)[t], i);
      assert order[i] in j.mappings && WritesValue(j, order[i], t, Written(j, order)[t]);
      assert Writes(j, order[i], t);
    }
  }

  // ----- the mapper

  /** The loop over the path of a nested field. */
  method ExtractNestedLoop(data: Fields, base: string, path: string) returns (r: Option<Json>)
    ensures r == ExtractNested(data, base, path)
  {
    if base !in data {
      return None;
    }
    var parts := Split(path, '.');
    var current := data[base];
    for i := 0 to |parts|
      invariant DescendAll(data[base], parts[..i]) == Some(current)
    {
      assert parts[..i + 1][..i] == parts[..i];
      var next := Descend(current, parts[i]);
      if next.None? {
        DescendFails(data[base], parts, i);
        return None;
      }
      current := next.value;
    }
    assert parts[..|parts|] == parts;
    r := Some(current);
  }

  lemma {:induction false} DescendFails(value: Json, parts: seq<string>, i: nat)
    requires i < |parts| && DescendAll(value, parts[..i + 1]).None?
    ensures DescendAll(value, parts).None?
  {
    if i + 1 == |parts| {
      assert parts[..i + 1] == parts;
    } else {
      assert parts[..|parts| - 1][..i + 1] == parts[..i + 1];
      DescendFails(value, parts[..|parts| - 1], i);
    }
  }

  /** The loop over the sources of a composite field. */
  method Composite(j: Job, sources: seq<string>) returns (values: seq<string>, used: set<string>)
    ensures values == Texts(j.render, j.data, sources) && used == set s | s in sources && s in j.data
  {
    values, used := [], {};
    for i := 0 to |sources|
      invariant values == Texts(j.render, j.data, sources[..i])
      invariant used == set s | s in sources[..i] && s in j.data
    {
      var source := sources[i];
      assert sources[..i + 1][..i] == sources[..i];
      assert sources[..i + 1] == sources[..i] + [source];
      if source in j.data {
        values, used := values + [ValueToString(j.render, j.data[source])], used + {source};
      }
    }
    assert sources[..|sources|] == sources;
  }

  /** The body of the loop over the mappings. */
  method ApplyMapping(j: Job, source: string, result: Fields, mappedSources: set<string>)
    returns (after: Fields, usedAfter: set<string>)
    requires source in j.mappings
    ensures after == Overlay(result, Contribute(j, source).written)
    ensures usedAfter == mappedSources + Contribute(j, source).used
  {
    after, usedAfter := result, mappedSources;
    match j.mappings[source] {
      case Simple(target) =>
        if source in j.data {
          after, usedAfter := result[target := j.data[source]], mappedSources + {source};
        }
      case Complex(None, _, _, _, _) =>
      case Complex(Some(target), _, Some(sources), separator, _) =>
        var values, used := Composite(j, sources);
        usedAfter := mappedSources + used;
        if values != [] {
          after := result[target := JString(Join(values, separator.GetOr(",")))];
        }
      case Complex(Some(target), _, None, _, Some(path)) =>
        var value := ExtractNestedLoop(j.data, source, path);
        if value.Some? {
          after, usedAfter := result[target := value.value], mappedSources + {source};
        }
      case Complex(Some(target), default, None, _, None) =>
        after := result[target := if source in j.data then j.data[source] else default.GetOr(JNull)];
        usedAfter := mappedSources + {source};
    }
  }

  lemma WrittenStep(j: Job, order: seq<string>, s: string)
    ensures Written(j, order + [s]) == Overlay(Written(j, order), Contribute(j, s).written)
  {
  }

  lemma UsedByStep(j: Job, sources: set<string>, s: string)
    ensures UsedBy(j, sources + {s}) == UsedBy(j, sources) + Contribute(j, s).used
  {
  }

  /** The mappings in the order the hash map gives them. */
  method ApplyMappings(j: Job) returns (result: Fields, mappedSources: set<string>, ghost order: seq<string>)
    ensures IsOrder(j, order) && result == Written(j, order) && mappedSources == UsedBy(j, j.mappings.Keys)
  {
    result, mappedSources, order := map[], {}, [];
    var left := j.mappings.Keys;
    ghost var done := {};
    while left != {}
      invariant left !! done && left + done == j.mappings.Keys && multiset(order) == multiset(done)
      invariant result == Written(j, order) && mappedSources == UsedBy(j, done)
    {
      var source :| source in left;
      WrittenStep(j, order, source);
      UsedByStep(j, done, source);
      result, mappedSources := ApplyMapping(j, source, result, mappedSources);
      order, left, done := order + [source], left - {source}, done + {source};
    }
    assert done == j.mappings.Keys;
  }

  lemma PrefixedStep(prefix: string, unmapped: Fields, done: set<string>, k: string)
    ensures Prefixed(prefix, Restrict(unmapped, done + {k})) ==
            if k in unmapped then Prefixed(prefix, Restrict(unmapped, done))[prefix + k := unmapped[k]]
            else Prefixed(prefix, Restrict(unmapped, done))
  {
  }

  lemma RestrictStep(fields: Fields, done: set<string>, k: string)
    ensures Restrict(fields, done + {k}) == if k in fields then Restrict(fields, done)[k := fields[k]] else Restrict(fields, done)
  {
  }

  lemma FinishIncludeStep(mapped: Fields, unmapped: Fields, done: set<string>, k: string)
    requires k !in done
    ensures var before := Restrict(unmapped, done) + mapped;
            Restrict(unmapped, done + {k}) + mapped ==
            if k !in unmapped || k in before then before else before[k := unmapped[k]]
  {
  }

  lemma OverrideStep(mapped: Fields, prefixed: Fields, k: string, value: Json)
    ensures mapped + prefixed[k := value] == (mapped + prefixed)[k := value]
  {
  }

  lemma FinishPrefixStep(prefix: string, mapped: Fields, unmapped: Fields, done: set<string>, k: string)
    ensures var before := mapped + Prefixed(prefix, Restrict(unmapped, done));
            mapped + Prefixed(prefix, Restrict(unmapped, done + {k})) ==
            if k !in unmapped then before else before[prefix + k := unmapped[k]]
  {
    PrefixedStep(prefix, unmapped, done, k);
    if k in unmapped {
      OverrideStep(mapped, Prefixed(prefix, Restrict(unmapped, done)), prefix + k, unmapped[k]);
    }
  }

  /** The fields no mapping uses, in the order the hash map gives them. */
  method AddUnmapped(j: Job, mapped: Fields, mappedSources: set<string>) returns (result: Fields)
    requires mappedSources == UsedBy(j, j.mappings.Keys)
    ensures result == Finish(j.strategy, mapped, Unmapped(j))
  {
    match j.strategy {
      case Include => result := AddPlain(j, mapped, mappedSources);
      case Exclude => result := mapped;
      case Prefix(prefix) => result := AddPrefixed(j, prefix, mapped, mappedSources);
    }
  }

  method AddPlain(j: Job, mapped: Fields, mappedSources: set<string>) returns (result: Fields)
    requires mappedSources == UsedBy(j, j.mappings.Keys)
    ensures result == Unmapped(j) + mapped
  {
    result := mapped;
    var left := j.data.Keys;
    ghost var unmapped := Unmapped(j);
    assert Restrict(unmapped, j.data.Keys - left) == map[];
    while left != {}
      invariant left <= j.data.Keys
      invariant result == Restrict(unmapped, j.data.Keys - left) + mapped
    {
      var k :| k in left;
      assert j.data.Keys - (left - {k}) == (j.data.Keys - left) + {k};
      FinishIncludeStep(mapped, unmapped, j.data.Keys - left, k);
      if k !in mappedSources && k !in result {
        result := result[k := j.data[k]];
      }
      left := left - {k};
    }
    assert Restrict(unmapped, j.data.Keys - left) == unmapped;
  }

  method AddPrefixed(j: Job, prefix: string, mapped: Fields, mappedSources: set<string>) returns (result: Fields)
    requires mappedSources == UsedBy(j, j.mappings.Keys)
    ensures result == mapped + Prefixed(prefix, Unmapped(j))
  {
    result := mapped;
    var left := j.data.Keys;
    ghost var unmapped := Unmapped(j);
    assert Restrict(unmapped, j.data.Keys - left) == map[];
    assert Prefixed(prefix, map[]) == map[];
    while left != {}
      invariant left <= j.data.Keys
      invariant result == mapped + Prefixed(prefix, Restrict(unmapped, j.data.Keys - left))
    {
      var k :| k in left;
      assert j.data.Keys - (left - {k}) == (j.data.Keys - left) + {k};
      FinishPrefixStep(prefix, mapped, unmapped, j.data.Keys - left, k);
      if k !in mappedSources {
        result := result[prefix + k := j.data[k]];
      }
      left := left - {k};
    }
    assert Restrict(unmapped, j.data.Keys - left) == unmapped;
  }

  /** `map_fields`: the result for some order of the mappings. */
  method MapFields(j: Job) returns (result: Fields)
    ensures exists order :: IsOrder(j, order) && result == MappedFields(j, order)
  {
    var mapped, mappedSources;
    ghost var order;
    mapped, mappedSources, order := ApplyMappings(j);
    result := AddUnmapped(j, mapped, mappedSources);
  }

  datatype TableMapping = TableMapping(name: Option<string>, fields: Option<map<string, FieldMapping>>)

  /** The strategy is configured by name; an unknown name includes. */
  datatype Config = Config(
    tables: map<string, TableMapping>, unmappedFieldsStrategy: string, unmappedFieldsPrefix: Option<string>, render: Json -> string)

  function JobFor(cfg: Config, data: Fields, mappings: map<string, FieldMapping>): Job {
    Job(data, mappings, StrategyOf(cfg.unmappedFieldsStrategy, cfg.unmappedFieldsPrefix), cfg.render)
  }

  /** The mapped data of an event of a table, for some order of its mappings. */
  ghost predicate MapsTo(cfg: Config, table: string, before: Fields, after: Fields) {
    if table in cfg.tables && cfg.tables[table].fields.Some? then
      var j := JobFor(cfg, before, cfg.tables[table].fields.value);
      exists order :: IsOrder(j, order) && after == MappedFields(j, order)
    else after == before
  }

  function NewName(cfg: Config, table: string): string {
    if table in cfg.tables then cfg.tables[table].name.GetOr(table) else table
  }

  method MapData(cfg: Config, table: string, data: Fields) returns (mapped: Fields)
    ensures MapsTo(cfg, table, data, mapped)
  {
    mapped := data;
    if table in cfg.tables && cfg.tables[table].fields.Some? {
      mapped := MapFields(JobFor(cfg, data, cfg.tables[table].fields.value));
    }
  }

  /** Change events and full-sync documents of a configured table are renamed and mapped; all else passes unchanged. */
  method MapEvent(cfg: Config, e: Event) returns (r: Event)
    ensures match e
            case Cdc(c) =>
              && r.Cdc? && r.cdc == c.(table := NewName(cfg, c.table), data := r.cdc.data)
              && MapsTo(cfg, c.table, c.data, r.cdc.data)
            case FullSync(table, JObject(fields)) =>
              && r.FullSync? && r.table == NewName(cfg, table) && r.document.JObject?
              && MapsTo(cfg, table, fields, r.document.fields)
            case FullSync(table, document) => r == FullSync(NewName(cfg, table), document)
            case _ => r == e
  {
    match e {
      case Cdc(c) =>
        var data := MapData(cfg, c.table, c.data);
        r := Cdc(c.(table := NewName(cfg, c.table), data := data));
      case FullSync(table, document) =>
        if document.JObject? {
          var fields := MapData(cfg, table, document.fields);
          r := FullSync(NewName(cfg, table), JObject(fields));
        } else {
          r := FullSync(NewName(cfg, table), document);
        }
      case _ => r := e;
    }
  }
}
