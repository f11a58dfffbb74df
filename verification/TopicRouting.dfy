/** Topic bindings (section 3.1.3.3 of AMQP 0-9-1) and the resolution of a routing key to a
    workflow stage. */
module TopicRouting {

  import opened Splitting

  datatype Option<+T> = None | Some(value: T)

  /** `key.split(".")`: always at least one word, possibly empty. */
  type Words = seq<string>

  /** The recursion of the matcher, on the words still to be matched. */
  predicate Matches(binding: Words, routing: Words)
    decreases |binding| + |routing|
  {
    if binding == [] then routing == []
    else if binding[0] == "#" then
      Matches(binding[1..], routing) || (routing != [] && Matches(binding, routing[1..]))
    else if routing == [] then false
    else (binding[0] == "*" || binding[0] == routing[0]) && Matches(binding[1..], routing[1..])
  }

  // ---- What the standard asks for

  /** `#` stands for any number of words, `*` for exactly one, any other word for itself. */
  predicate Fits(token: string, segment: Words) {
    token == "#" || (|segment| == 1 && (token == "*" || segment[0] == token))
  }

  function Flatten(segments: seq<Words>): Words {
    if segments == [] then [] else segments[0] + Flatten(segments[1..])
  }

  /** The routing words split into one segment for each token of the binding. */
  ghost predicate Segments(binding: Words, routing: Words, segments: seq<Words>) {
    && |segments| == |binding|
    && Flatten(segments) == routing
    && forall i | 0 <= i < |binding| :: Fits(binding[i], segments[i])
  }

  lemma {:induction false} MatchGivesSegments(binding: Words, routing: Words) returns (segments: seq<Words>)
    requires Matches(binding, routing)
    ensures Segments(binding, routing, segments)
    decreases |binding| + |routing|
  {
    if binding == [] {
      segments := [];
    } else if binding[0] == "#" && !Matches(binding[1..], routing) {
      var rest := MatchGivesSegments(binding, routing[1..]);
      segments := [[routing[0]] + rest[0]] + rest[1..];
      assert Flatten(segments) == ([routing[0]] + rest[0]) + Flatten(rest[1..]);
      assert Flatten(segments) == [routing[0]] + Flatten(rest);
    } else {
      var n := if binding[0] == "#" then 0 else 1;
      var rest := MatchGivesSegments(binding[1..], routing[n..]);
      segments := [routing[..n]] + rest;
      assert Flatten(segments) == routing[..n] + routing[n..];
    }
  }

  lemma {:induction false} SegmentsGiveMatch(binding: Words, routing: Words, segments: seq<Words>)
    requires Segments(binding, routing, segments)
    ensures Matches(binding, routing)
    decreases |binding| + |routing|
  {
    if binding != [] {
      var head, tail := segments[0], segments[1..];
      assert routing == head + Flatten(tail);
      assert Fits(binding[0], head);
      if binding[0] == "#" && head != [] {
        var shorter := [head[1..]] + tail;
        assert Flatten(shorter) == head[1..] + Flatten(tail) == routing[1..];
        SegmentsGiveMatch(binding, routing[1..], shorter);
      } else {
        assert routing[|head|..] == Flatten(tail);
        SegmentsGiveMatch(binding[1..], routing[|head|..], tail);
        assert head == [] ==> routing[|head|..] == routing;
      }
    }
  }

  /** A binding matches exactly when the routing words split into fitting segments. */
  lemma MatchIffSegments(binding: Words, routing: Words)
    ensures Matches(binding, routing) <==> exists segments :: Segments(binding, routing, segments)
  {
    if Matches(binding, routing) {
      var segments := MatchGivesSegments(binding, routing);
    }
    if segments :| Segments(binding, routing, segments) {
      SegmentsGiveMatch(binding, routing, segments);
    }
  }

  // ---- Laws

  /** Any words match themselves, even read as a binding. */
  lemma {:induction false} MatchesItself(words: Words)
    ensures Matches(words, words)
  {
    if words != [] {
      MatchesItself(words[1..]);
      if words[0] == "#" {
        SkipAll(words[1..], words, 1);
      }
    }
  }

  /** `#` may take any number of words. */
  lemma {:induction false} SkipAll(binding: Words, routing: Words, n: nat)
    requires n <= |routing| && Matches(binding, routing[n..])
    ensures Matches(["#"] + binding, routing)
    decreases n
  {
    var whole := ["#"] + binding;
    assert whole[1..] == binding;
    if n == 0 {
      assert routing[0..] == routing;
    } else {
      assert routing[1..][n - 1..] == routing[n..];
      SkipAll(binding, routing[1..], n - 1);
    }
  }

  /** A binding in two parts matches exactly the words that can be cut in two parts accordingly. */
  lemma MatchesConcat(left: Words, right: Words, routing: Words)
    ensures Matches(left + right, routing) <==>
              exists k :: 0 <= k <= |routing| && Matches(left, routing[..k]) && Matches(right, routing[k..])
  {
    if Matches(left + right, routing) {
      var k := CutMatch(left, right, routing);
    }
    forall k | 0 <= k <= |routing| && Matches(left, routing[..k]) && Matches(right, routing[k..])
      ensures Matches(left + right, routing)
    {
      JoinMatch(left, right, routing[..k], routing[k..]);
      assert routing[..k] + routing[k..] == routing;
    }
  }

  lemma {:induction false} CutMatch(left: Words, right: Words, routing: Words) returns (k: nat)
    requires Matches(left + right, routing)
    ensures k <= |routing| && Matches(left, routing[..k]) && Matches(right, routing[k..])
    decreases |left| + |routing|
  {
    if left == [] {
      assert left + right == right && routing[0..] == routing;
      k := 0;
    } else {
      var whole := left + right;
      assert whole[0] == left[0] && whole[1..] == left[1..] + right;
      if left[0] == "#" && Matches(whole[1..], routing) {
        k := CutMatch(left[1..], right, routing);
      } else {
        var j := CutMatch(if left[0] == "#" then left else left[1..], right, routing[1..]);
        k := j + 1;
        assert routing[..k][1..] == routing[1..][..k - 1];
        assert routing[k..] == routing[1..][k - 1..];
      }
    }
  }

  lemma {:induction false} JoinMatch(left: Words, right: Words, a: Words, b: Words)
    requires Matches(left, a) && Matches(right, b)
    ensures Matches(left + right, a + b)
    decreases |left| + |a|
  {
    var whole := left + right;
    if left == [] {
      assert whole == right && a + b == b;
    } else {
      assert whole[0] == left[0] && whole[1..] == left[1..] + right;
      if left[0] == "#" && Matches(left[1..], a) {
        JoinMatch(left[1..], right, a, b);
      } else {
        assert (a + b)[0] == a[0] && (a + b)[1..] == a[1..] + b;
        JoinMatch(if left[0] == "#" then left else left[1..], right, a[1..], b);
      }
    }
  }

  ghost predicate Equivalent(p: Words, q: Words) {
    forall words :: Matches(p, words) <==> Matches(q, words)
  }

  /** Equivalent parts may replace each other inside any binding. */
  lemma EquivalentInside(before: Words, p: Words, q: Words, after: Words)
    requires Equivalent(p, q)
    ensures Equivalent(before + p + after, before + q + after)
  {
    forall words
      ensures Matches(before + p + after, words) <==> Matches(before + q + after, words)
    {
      if Matches(before + p + after, words) {
        InsideImplies(before, p, q, after, words);
      }
      if Matches(before + q + after, words) {
        InsideImplies(before, q, p, after, words);
      }
    }
  }

  lemma InsideImplies(before: Words, p: Words, q: Words, after: Words, words: Words)
    requires Equivalent(p, q) && Matches(before + p + after, words)
    ensures Matches(before + q + after, words)
  {
    var k := CutMatch(before + p, after, words);
    var j := CutMatch(before, p, words[..k]);
    JoinMatch(before, q, words[..k][..j], words[..k][j..]);
    assert words[..k][..j] + words[..k][j..] == words[..k];
    JoinMatch(before + q, after, words[..k], words[k..]);
    assert words[..k] + words[k..] == words;
  }

  lemma {:induction false} HashMatchesAll(words: Words)
    ensures Matches(["#"], words)
  {
    assert words[|words|..] == [];
    SkipAll([], words, |words|);
    assert ["#"] + [] == ["#"];
  }

  lemma StarMatchesOne(words: Words)
    ensures Matches(["*"], words) <==> |words| == 1
  {
    assert ["*"][1..] == [];
  }

  /** `#.#` is `#`, and `#.*` is `*.#`, inside any binding. */
  lemma HashLaws(before: Words, after: Words)
    ensures Equivalent(before + ["#", "#"] + after, before + ["#"] + after)
    ensures Equivalent(before + ["#", "*"] + after, before + ["*", "#"] + after)
  {
    forall words
      ensures Matches(["#", "#"], words) <==> Matches(["#"], words)
    {
      HashMatchesAll(words);
      JoinMatch(["#"], ["#"], words, []);
      assert ["#"] + ["#"] == ["#", "#"] && words + [] == words;
    }
    EquivalentInside(before, ["#", "#"], ["#"], after);
    forall words
      ensures Matches(["#", "*"], words) <==> Matches(["*", "#"], words)
    {
      HashStar(words);
      StarHash(words);
    }
    EquivalentInside(before, ["#", "*"], ["*", "#"], after);
  }

  lemma HashStar(words: Words)
    ensures Matches(["#", "*"], words) <==> |words| >= 1
  {
    assert ["#"] + ["*"] == ["#", "*"];
    if Matches(["#", "*"], words) {
      var k := CutMatch(["#"], ["*"], words);
      StarMatchesOne(words[k..]);
    }
    if |words| >= 1 {
      var k := |words| - 1;
      HashMatchesAll(words[..k]);
      StarMatchesOne(words[k..]);
      JoinMatch(["#"], ["*"], words[..k], words[k..]);
      assert words[..k] + words[k..] == words;
    }
  }

  lemma StarHash(words: Words)
    ensures Matches(["*", "#"], words) <==> |words| >= 1
  {
    assert ["*"] + ["#"] == ["*", "#"];
    if Matches(["*", "#"], words) {
      var k := CutMatch(["*"], ["#"], words);
      StarMatchesOne(words[..k]);
    }
    if |words| >= 1 {
      HashMatchesAll(words[1..]);
      StarMatchesOne(words[..1]);
      JoinMatch(["*"], ["#"], words[..1], words[1..]);
      assert words[..1] + words[1..] == words;
    }
  }

  // ---- The memoised matcher

  class Matcher {
    const bindingParts: Words
    const routingParts: Words
    var cache: map<(nat, nat), bool>

    constructor (bindingParts: Words, routingParts: Words)
      ensures this.bindingParts == bindingParts && this.routingParts == routingParts
      ensures CacheSound()
    {
      this.bindingParts, this.routingParts, cache := bindingParts, routingParts, map[];
    }

    ghost predicate CacheSound()
      reads this
    {
      forall i: nat, j: nat | (i, j) in cache ::
        && i <= |bindingParts| && j <= |routingParts|
        && cache[(i, j)] == Matches(bindingParts[i..], routingParts[j..])
    }

    method Lookup(bindingIndex: nat, routingIndex: nat) returns (hit: bool)
      requires CacheSound() && bindingIndex <= |bindingParts| && routingIndex <= |routingParts|
      modifies this
      ensures CacheSound()
      ensures hit == Matches(bindingParts[bindingIndex..], routingParts[routingIndex..])
      decreases |bindingParts| - bindingIndex + |routingParts| - routingIndex
    {
      if (bindingIndex, routingIndex) in cache {
        return cache[(bindingIndex, routingIndex)];
      }
      if bindingIndex == |bindingParts| {
        hit := routingIndex == |routingParts|;
      } else {
        var token := bindingParts[bindingIndex];
        if token == "#" {
          hit := Lookup(bindingIndex + 1, routingIndex);
          if !hit && routingIndex < |routingParts| {
            hit := Lookup(bindingIndex, routingIndex + 1);
          }
        } else if routingIndex == |routingParts| {
          hit := false;
        } else if token == "*" || token == routingParts[routingIndex] {
          hit := Lookup(bindingIndex + 1, routingIndex + 1);
        } else {
          hit := false;
        }
      }
      cache := cache[(bindingIndex, routingIndex) := hit];
    }
  }

  /** A binding key matches a routing key: the words of the one have fitting segments among the words
      of the other. */
  ghost predicate KeyMatches(bindingKey: string, routingKey: string) {
    exists binding, routing, segments ::
      Spells(binding, bindingKey, '.') && Spells(routing, routingKey, '.') && Segments(binding, routing, segments)
  }

  lemma KeysMatchBySplit(bindingKey: string, routingKey: string)
    ensures KeyMatches(bindingKey, routingKey) <==> Matches(Split(bindingKey, '.'), Split(routingKey, '.'))
  {
    MatchIffSegments(Split(bindingKey, '.'), Split(routingKey, '.'));
    SplitIsUnique(bindingKey, '.', Split(bindingKey, '.'));
    SplitIsUnique(routingKey, '.', Split(routingKey, '.'));
    if binding, routing, segments :|
      Spells(binding, bindingKey, '.') && Spells(routing, routingKey, '.') && Segments(binding, routing, segments) {
      SplitIsUnique(bindingKey, '.', binding);
      SplitIsUnique(routingKey, '.', routing);
    }
  }

  /** `_topic_binding_matches`: the memoised answer is the segmentation the standard asks for, on the
      words between the dots. */
  method TopicBindingMatches(bindingKey: string, routingKey: string) returns (hit: bool)
    ensures hit <==> KeyMatches(bindingKey, routingKey)
    ensures forall binding, routing | Spells(binding, bindingKey, '.') && Spells(routing, routingKey, '.') ::
              hit <==> exists segments :: Segments(binding, routing, segments)
  {
    var matcher := new Matcher(Split(bindingKey, '.'), Split(routingKey, '.'));
    hit := matcher.Lookup(0, 0);
    assert matcher.bindingParts[0..] == Split(bindingKey, '.') && matcher.routingParts[0..] == Split(routingKey, '.');
    KeysMatchBySplit(bindingKey, routingKey);
    forall binding, routing | Spells(binding, bindingKey, '.') && Spells(routing, routingKey, '.')
      ensures hit <==> exists segments :: Segments(binding, routing, segments)
    {
      SplitIsUnique(bindingKey, '.', binding);
      SplitIsUnique(routingKey, '.', routing);
      MatchIffSegments(binding, routing);
    }
  }

  // ---- Stages

  datatype Stage = Stage(name: string, publishKey: string, bindings: seq<string>)

  datatype Route = Route(routingKey: string, target: string)

  /** `routes` is `None` for a topology without entry routes. */
  datatype Topology = Topology(stages: seq<Stage>, routes: Option<seq<Route>>)

  predicate Publishes(stage: Stage, key: string) {
    stage.publishKey == key
  }

  predicate BindsExactly(stage: Stage, key: string) {
    key in stage.bindings
  }

  ghost predicate BindsPattern(stage: Stage, key: string) {
    exists b :: b in stage.bindings && KeyMatches(b, key)
  }

  function Routes(t: Topology): seq<Route> {
    if t.routes.Some? then t.routes.value else []
  }

  /** The i-th stage is the first of which `p` holds. */
  ghost predicate FirstStage(t: Topology, key: string, p: (Stage, string) -> bool, i: nat) {
    && i < |t.stages| && p(t.stages[i], key)
    && forall j | 0 <= j < i :: !p(t.stages[j], key)
  }

  ghost predicate NoStage(t: Topology, key: string, p: (Stage, string) -> bool) {
    forall i | 0 <= i < |t.stages| :: !p(t.stages[i], key)
  }

  ghost predicate FirstRoute(t: Topology, key: string, i: nat) {
    && i < |Routes(t)| && Routes(t)[i].routingKey == key
    && forall j | 0 <= j < i :: Routes(t)[j].routingKey != key
  }

  ghost predicate NoRoute(t: Topology, key: string) {
    forall i | 0 <= i < |Routes(t)| :: Routes(t)[i].routingKey != key
  }

  /** Publish keys come first, then exact bindings, then entry routes, then patterns; within each,
      the earliest declared. */
  ghost predicate Resolves(t: Topology, key: string, r: Option<string>) {
    || (exists i: nat :: FirstStage(t, key, Publishes, i) && r == Some(t.stages[i].name))
    || (NoStage(t, key, Publishes) && (
          || (exists i: nat :: FirstStage(t, key, BindsExactly, i) && r == Some(t.stages[i].name))
          || (NoStage(t, key, BindsExactly) && (
                || (exists i: nat :: FirstRoute(t, key, i) && r == Some(Routes(t)[i].target))
                || (NoRoute(t, key) && (
                      || (exists i: nat :: FirstStage(t, key, BindsPattern, i) && r == Some(t.stages[i].name))
                      || (NoStage(t, key, BindsPattern) && r == None)))))))
  }

  /** `None` is the source's `KeyError`. */
  method Resolve(t: Topology, key: string) returns (r: Option<string>)
    ensures Resolves(t, key, r)
  {
    for i := 0 to |t.stages|
      invariant forall j | 0 <= j < i :: !Publishes(t.stages[j], key)
    {
      if t.stages[i].publishKey == key {
        assert FirstStage(t, key, Publishes, i);
        return Some(t.stages[i].name);
      }
    }
    assert NoStage(t, key, Publishes);
    for i := 0 to |t.stages|
      invariant forall j | 0 <= j < i :: !BindsExactly(t.stages[j], key)
    {
      if key in t.stages[i].bindings {
        assert FirstStage(t, key, BindsExactly, i);
        return Some(t.stages[i].name);
      }
    }
    assert NoStage(t, key, BindsExactly);
    if t.routes.Some? {
      for i := 0 to |t.routes.value|
        invariant forall j | 0 <= j < i :: Routes(t)[j].routingKey != key
      {
        if t.routes.value[i].routingKey == key {
          assert FirstRoute(t, key, i);
          return Some(t.routes.value[i].target);
        }
      }
    }
    assert NoRoute(t, key);
    for i := 0 to |t.stages|
      invariant forall j | 0 <= j < i :: !BindsPattern(t.stages[j], key)
    {
      var any := AnyMatches(t.stages[i].bindings, key);
      if any {
        assert FirstStage(t, key, BindsPattern, i);
        return Some(t.stages[i].name);
      }
    }
    assert NoStage(t, key, BindsPattern);
    return None;
  }

  method AnyMatches(bindings: seq<string>, key: string) returns (any: bool)
    ensures any <==> exists b :: b in bindings && KeyMatches(b, key)
  {
    any := false;
    for k := 0 to |bindings|
      invariant !any && forall b | b in bindings[..k] :: !KeyMatches(b, key)
    {
      var hit := TopicBindingMatches(bindings[k], key);
      if hit {
        return true;
      }
    }
  }

  lemma ExactIsPattern(stage: Stage, key: string)
    requires BindsExactly(stage, key)
    ensures BindsPattern(stage, key)
  {
    MatchesItself(Split(key, '.'));
    KeysMatchBySplit(key, key);
    assert KeyMatches(key, key);
  }

  /** There is exactly one answer. */
  lemma ResolutionIsUnique(t: Topology, key: string, r: Option<string>, r': Option<string>)
    requires Resolves(t, key, r) && Resolves(t, key, r')
    ensures r == r'
  {
  }

  /** The tiers, one by one: the first stage that publishes under the key; with none, the first that
      binds the very key; with none, the first route for it; with none, the first stage with a pattern. */
  lemma TiersInOrder(t: Topology, key: string, r: Option<string>, i: nat)
    requires Resolves(t, key, r)
    requires i <= |t.stages| && forall j | 0 <= j < i :: t.stages[j].publishKey != key
    ensures i < |t.stages| && t.stages[i].publishKey == key ==> r == Some(t.stages[i].name)
    ensures i == |t.stages| ==> forall k: nat | k < |t.stages| && key in t.stages[k].bindings
                                              && (forall j | 0 <= j < k :: key !in t.stages[j].bindings) ::
              r == Some(t.stages[k].name)
    ensures i == |t.stages| && (forall j | 0 <= j < i :: key !in t.stages[j].bindings) && t.routes.Some? ==>
              forall k: nat | k < |t.routes.value| && t.routes.value[k].routingKey == key
                              && (forall j | 0 <= j < k :: t.routes.value[j].routingKey != key) ::
                r == Some(t.routes.value[k].target)
  {
    if i == |t.stages| {
      forall k: nat | k < |t.stages| && key in t.stages[k].bindings
                      && (forall j | 0 <= j < k :: key !in t.stages[j].bindings)
        ensures r == Some(t.stages[k].name)
      {
        assert FirstStage(t, key, BindsExactly, k);
      }
      if (forall j | 0 <= j < i :: key !in t.stages[j].bindings) && t.routes.Some? {
        forall k: nat | k < |t.routes.value| && t.routes.value[k].routingKey == key
                        && (forall j | 0 <= j < k :: t.routes.value[j].routingKey != key)
          ensures r == Some(t.routes.value[k].target)
        {
          assert FirstRoute(t, key, k);
        }
      }
    } else if t.stages[i].publishKey == key {
      assert FirstStage(t, key, Publishes, i);
    }
  }

  /** Resolution fails exactly when no publish key, entry route or binding pattern fits; what it
      answers is a stage that fits, or the target of a route that does. */
  lemma ResolutionIsSoundAndComplete(t: Topology, key: string, r: Option<string>)
    requires Resolves(t, key, r)
    ensures r == None <==> NoStage(t, key, Publishes) && NoRoute(t, key) && NoStage(t, key, BindsPattern)
    ensures r.Some? ==>
              || (exists i: nat :: i < |t.stages| && t.stages[i].name == r.value
                                   && (Publishes(t.stages[i], key) || BindsPattern(t.stages[i], key)))
              || (exists i: nat :: FirstRoute(t, key, i) && Routes(t)[i].target == r.value)
  {
    forall i | 0 <= i < |t.stages| && BindsExactly(t.stages[i], key)
      ensures BindsPattern(t.stages[i], key)
    {
      ExactIsPattern(t.stages[i], key);
    }
  }

  /** With distinct publish keys, a stage's own publish key leads back to it. */
  lemma OwnKeyResolvesToStage(t: Topology, i: nat, r: Option<string>)
    requires i < |t.stages| && Resolves(t, t.stages[i].publishKey, r)
    requires forall j, k | 0 <= j < k < |t.stages| :: t.stages[j].publishKey != t.stages[k].publishKey
    ensures r == Some(t.stages[i].name)
  {
    assert Publishes(t.stages[i], t.stages[i].publishKey);
  }
}
