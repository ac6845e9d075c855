/** Topic names: the tenant prefix of src/state.rs, its removal and the clean-up of client input in
    src/server.rs. */
module Topics {

  const MAX_TOPIC: nat := 128
  const DEFAULT_TOPIC := "public"

  // ----- Keys

  function TenantTopic(tenant: string, topic: string): string {
    tenant + ":" + topic
  }

  /** What follows the first ':'; the whole string when there is none. */
  function ExtractTopic(key: string): string {
    AfterColon(key, key)
  }

  function AfterColon(rest: string, otherwise: string): string {
    if rest == "" then otherwise
    else if rest[0] == ':' then rest[1..]
    else AfterColon(rest[1..], otherwise)
  }

  lemma {:induction false} AfterColonSkips(tenant: string, topic: string, otherwise: string)
    ensures ':' !in tenant ==> AfterColon(tenant + ":" + topic, otherwise) == topic
    ensures ':' in tenant ==> |AfterColon(tenant + ":" + topic, otherwise)| > |topic|
  {
    var key := tenant + ":" + topic;
    if tenant == "" {
      assert key[1..] == topic;
    } else {
      assert key[1..] == tenant[1..] + ":" + topic;
      AfterColonSkips(tenant[1..], topic, otherwise);
    }
  }

  /** The key gives back the topic it was made of exactly when the tenant id has no ':' in it. */
  lemma KeyRoundTrip(tenant: string, topic: string)
    ensures ExtractTopic(TenantTopic(tenant, topic)) == topic <==> ':' !in tenant
  {
    AfterColonSkips(tenant, topic, TenantTopic(tenant, topic));
  }

  // ----- Normalization

  /** The code points with the Unicode property White_Space, as ranges. */
  const SPACES: seq<(int, int)> :=
    [(0x9, 0xD), (0x20, 0x20), (0x85, 0x85), (0xA0, 0xA0), (0x1680, 0x1680), (0x2000, 0x200A), (0x2028, 0x2029),
     (0x202F, 0x202F), (0x205F, 0x205F), (0x3000, 0x3000)]

  predicate InRanges(code: int, ranges: seq<(int, int)>) {
    ranges != [] && (ranges[0].0 <= code <= ranges[0].1 || InRanges(code, ranges[1..]))
  }

  predicate IsSpace(c: char) {
    InRanges(c as int, SPACES)
  }

  lemma InFrom(code: int, k: nat)
    requires k < |SPACES|
    ensures InRanges(code, SPACES[k..]) <==> SPACES[k].0 <= code <= SPACES[k].1 || InRanges(code, SPACES[k + 1..])
  {
    assert SPACES[k..][1..] == SPACES[k + 1..];
  }

  lemma SpaceRanges(code: int)
    ensures InRanges(code, SPACES) <==>
            || 0x9 <= code <= 0xD || code == 0x20 || code == 0x85 || code == 0xA0 || code == 0x1680
            || 0x2000 <= code <= 0x200A || 0x2028 <= code <= 0x2029 || code == 0x202F || code == 0x205F
            || code == 0x3000
  {
    assert SPACES[0..] == SPACES;
    InFrom(code, 0); InFrom(code, 1); InFrom(code, 2); InFrom(code, 3); InFrom(code, 4);
    InFrom(code, 5); InFrom(code, 6); InFrom(code, 7); InFrom(code, 8); InFrom(code, 9);
  }

  /** They are these 25 characters. */
  lemma SpacesAre(c: char)
    ensures IsSpace(c) <==> c as int in {0x9, 0xA, 0xB, 0xC, 0xD, 0x20, 0x85, 0xA0, 0x1680, 0x2000, 0x2001, 0x2002,
                                         0x2003, 0x2004, 0x2005, 0x2006, 0x2007, 0x2008, 0x2009, 0x200A, 0x2028,
                                         0x2029, 0x202F, 0x205F, 0x3000}
  {
    SpaceRanges(c as int);
  }

  lemma {:induction false} Outside(code: int, ranges: seq<(int, int)>)
    requires forall i | 0 <= i < |ranges| :: !(ranges[i].0 <= code <= ranges[i].1)
    ensures !InRanges(code, ranges)
  {
    if ranges != [] {
      Outside(code, ranges[1..]);
    }
  }

  /** Printable ASCII characters other than the blank are not spaces. */
  lemma PrintableIsNoSpace(c: char)
    requires '!' <= c <= '~'
    ensures !IsSpace(c)
  {
    Outside(c as int, SPACES);
  }

  function TrimStart(s: string): (r: string)
    ensures |r| <= |s| && (|r| == |s| ==> r == s)
    ensures r != "" ==> !IsSpace(r[0]) && r[|r| - 1] == s[|s| - 1]
  {
    if s != "" && IsSpace(s[0]) then TrimStart(s[1..]) else s
  }

  function TrimEnd(s: string): (r: string)
    ensures |r| <= |s| && (|r| == |s| ==> r == s)
    ensures r != "" ==> !IsSpace(r[|r| - 1]) && r[0] == s[0]
  {
    if s != "" && IsSpace(s[|s| - 1]) then TrimEnd(s[..|s| - 1]) else s
  }

  function Trim(s: string): string {
    TrimEnd(TrimStart(s))
  }

  function StripSlashes(s: string): (r: string)
    ensures |r| <= |s| && (|r| == |s| ==> r == s)
    ensures r != "" ==> r[0] != '/' && r[|r| - 1] == s[|s| - 1]
  {
    if s != "" && s[0] == '/' then StripSlashes(s[1..]) else s
  }

  function NormalizeTopic(topic: string): string {
    var t := StripSlashes(Trim(topic));
    if t == "" then DEFAULT_TOPIC else if |t| <= MAX_TOPIC then t else t[..MAX_TOPIC]
  }

  // What normalization does, without its helpers.

  predicate AllSpaces(s: string) {
    forall c | c in s :: IsSpace(c)
  }

  predicate AllSlashes(s: string) {
    forall c | c in s :: c == '/'
  }

  /** No space at either end. */
  predicate Unspaced(s: string) {
    s != "" ==> !IsSpace(s[0]) && !IsSpace(s[|s| - 1])
  }

  /** An input taken apart: spaces, slashes, the name, spaces. */
  predicate Parts(topic: string, lead: string, slashes: string, name: string, trail: string) {
    && topic == lead + slashes + name + trail
    && AllSpaces(lead) && AllSlashes(slashes) && AllSpaces(trail)
    && (name != "" ==> name[0] != '/') && Unspaced(slashes + name)
  }

  lemma {:induction false} TrimStartDrops(lead: string, s: string)
    requires AllSpaces(lead) && (s != "" ==> !IsSpace(s[0]))
    ensures TrimStart(lead + s) == s
  {
    if lead == "" {
      assert lead + s == s;
    } else {
      assert lead[0] in lead && forall c | c in lead[1..] :: c in lead;
      assert (lead + s)[1..] == lead[1..] + s;
      TrimStartDrops(lead[1..], s);
    }
  }

  lemma {:induction false} TrimEndDrops(s: string, trail: string)
    requires AllSpaces(trail) && (s != "" ==> !IsSpace(s[|s| - 1]))
    ensures TrimEnd(s + trail) == s
  {
    if trail == "" {
      assert s + trail == s;
    } else {
      var n := |trail| - 1;
      assert trail[n] in trail && forall c | c in trail[..n] :: c in trail;
      assert (s + trail)[..|s| + n] == s + trail[..n];
      TrimEndDrops(s, trail[..n]);
    }
  }

  lemma {:induction false} StripDrops(slashes: string, name: string)
    requires AllSlashes(slashes) && (name != "" ==> name[0] != '/')
    ensures StripSlashes(slashes + name) == name
  {
    if slashes == "" {
      assert slashes + name == name;
    } else {
      assert slashes[0] in slashes && forall c | c in slashes[1..] :: c in slashes;
      assert (slashes + name)[1..] == slashes[1..] + name;
      StripDrops(slashes[1..], name);
    }
  }

  lemma TrimDrops(lead: string, s: string, trail: string)
    requires AllSpaces(lead) && AllSpaces(trail) && Unspaced(s)
    ensures Trim(lead + s + trail) == s
  {
    if s == "" {
      assert lead + s + trail == (lead + trail) + "";
      TrimStartDrops(lead + trail, "");
    } else {
      assert lead + s + trail == lead + (s + trail);
      TrimStartDrops(lead, s + trail);
      TrimEndDrops(s, trail);
    }
  }

  /** However an input falls into such parts, its clean form is the name's first 128 characters, or "public" where
      there is no name. */
  lemma NormalizeExactly(topic: string, lead: string, slashes: string, name: string, trail: string)
    requires Parts(topic, lead, slashes, name, trail)
    ensures NormalizeTopic(topic) == if name == "" then "public" else if |name| <= 128 then name else name[..128]
  {
    assert topic == lead + (slashes + name) + trail;
    TrimDrops(lead, slashes + name, trail);
    StripDrops(slashes, name);
  }

  lemma {:induction false} LeadOf(s: string) returns (lead: string)
    ensures AllSpaces(lead) && s == lead + TrimStart(s)
  {
    lead := "";
    if s != "" && IsSpace(s[0]) {
      var rest := LeadOf(s[1..]);
      lead := [s[0]] + rest;
    }
  }

  lemma {:induction false} TrailOf(s: string) returns (trail: string)
    ensures AllSpaces(trail) && s == TrimEnd(s) + trail
  {
    trail := "";
    if s != "" && IsSpace(s[|s| - 1]) {
      var rest := TrailOf(s[..|s| - 1]);
      trail := rest + [s[|s| - 1]];
    }
  }

  lemma {:induction false} SlashesOf(s: string) returns (slashes: string)
    ensures AllSlashes(slashes) && s == slashes + StripSlashes(s)
  {
    slashes := "";
    if s != "" && s[0] == '/' {
      var rest := SlashesOf(s[1..]);
      slashes := "/" + rest;
    }
  }

  lemma Joined(lead: string, slashes: string, name: string, trail: string)
    ensures lead + ((slashes + name) + trail) == lead + slashes + name + trail
  {
  }

  /** And every input does. */
  lemma EveryInputHasParts(topic: string) returns (lead: string, slashes: string, name: string, trail: string)
    ensures Parts(topic, lead, slashes, name, trail)
  {
    lead := LeadOf(topic);
    trail := TrailOf(TrimStart(topic));
    slashes := SlashesOf(Trim(topic));
    name := StripSlashes(Trim(topic));
    assert slashes + name == Trim(topic);
    Joined(lead, slashes, name, trail);
  }

  /** The names a client can be given: not empty, at most 128 characters, no leading '/', and no trailing
      space unless the limit cut the name there. */
  predicate IsTopic(t: string) {
    1 <= |t| <= MAX_TOPIC && t[0] != '/' && (|t| < MAX_TOPIC ==> !IsSpace(t[|t| - 1]))
  }

  lemma NormalizedIsTopic(topic: string)
    ensures IsTopic(NormalizeTopic(topic)) && 1 <= |NormalizeTopic(topic)| <= 128
  {
    PrintableIsNoSpace('c');
  }

  /** An input that normalizes to a given name. */
  function Spelling(t: string): string
    requires IsTopic(t)
  {
    if IsSpace(t[|t| - 1]) then "/" + t + "x" else "/" + t
  }

  /** `IsTopic` describes the names exactly: every such name is the clean form of some input. */
  lemma EveryTopicArises(t: string)
    requires IsTopic(t)
    ensures NormalizeTopic(Spelling(t)) == t
  {
    var s := Spelling(t);
    PrintableIsNoSpace('x'); PrintableIsNoSpace('/');
    assert TrimStart(s) == s && TrimEnd(s) == s;
    assert s[1..] == if IsSpace(t[|t| - 1]) then t + "x" else t;
    assert StripSlashes(s) == s[1..];
  }

  /** The names a second application leaves alone. */
  lemma FixedExactly(t: string)
    ensures NormalizeTopic(t) == t <==> IsTopic(t) && !IsSpace(t[0]) && !IsSpace(t[|t| - 1])
  {
    NormalizedIsTopic(t);
    if IsTopic(t) && !IsSpace(t[0]) && !IsSpace(t[|t| - 1]) {
      assert TrimStart(t) == t && TrimEnd(t) == t && StripSlashes(t) == t;
    }
  }

  /** Normalizing once is enough exactly when stripping the slashes uncovers no space and the limit cuts
      behind none. */
  lemma IdempotentExactly(topic: string)
    ensures var t := StripSlashes(Trim(topic));
            NormalizeTopic(NormalizeTopic(topic)) == NormalizeTopic(topic)
            <==> t == "" || (!IsSpace(t[0]) && (|t| > MAX_TOPIC ==> !IsSpace(t[MAX_TOPIC - 1])))
  {
    NormalizedIsTopic(topic);
    FixedExactly(NormalizeTopic(topic));
    PrintableIsNoSpace('p'); PrintableIsNoSpace('c');
  }

  /** An input for which once is not enough. */
  lemma NormalizedTwice()
    ensures NormalizeTopic("/ a") == " a" && NormalizeTopic(" a") == "a"
  {
    PrintableIsNoSpace('a'); PrintableIsNoSpace('/');
    assert InRanges(0x20, SPACES[1..]);
    assert "/ a"[1..] == " a" && " a"[1..] == "a";
    assert TrimStart("/ a") == "/ a" && TrimEnd("/ a") == "/ a" && StripSlashes("/ a") == StripSlashes(" a") == " a";
    assert TrimStart(" a") == TrimStart("a") == "a" && TrimEnd("a") == "a" && StripSlashes("a") == "a";
  }

  /** Another application leaves a name alone, shortens it, or gives the default, which stays. */
  lemma NormalizeShrinks(topic: string)
    requires IsTopic(topic)
    ensures var t := NormalizeTopic(topic); t == topic || |t| < |topic| || t == DEFAULT_TOPIC
    ensures NormalizeTopic(DEFAULT_TOPIC) == DEFAULT_TOPIC
  {
    PrintableIsNoSpace('p'); PrintableIsNoSpace('c');
    FixedExactly(DEFAULT_TOPIC);
  }

  function Normalized(topic: string, times: nat): string {
    if times == 0 then topic else NormalizeTopic(Normalized(topic, times - 1))
  }

  lemma {:induction false} NormalizedSettles(topic: string, times: nat)
    requires times > 0
    ensures var t := Normalized(topic, times);
            NormalizeTopic(t) == t || |t| + times <= MAX_TOPIC + 1
  {
    var before := Normalized(topic, times - 1);
    NormalizedIsTopic(before);
    if times > 1 {
      NormalizedSettles(topic, times - 1);
      NormalizedIsTopic(Normalized(topic, times - 2));
      NormalizeShrinks(before);
    }
  }

  /** Whatever a client sends, the name has settled after 129 applications. */
  lemma NormalizeConverges(topic: string, times: nat)
    requires times > MAX_TOPIC
    ensures NormalizeTopic(Normalized(topic, times)) == Normalized(topic, times)
  {
    NormalizedSettles(topic, times);
    NormalizedIsTopic(Normalized(topic, times - 1));
  }

  // ----- When tenants share a key

  /** `inner` extends `outer` by a ':' and a part that can begin a topic name and leaves room for another. */
  predicate Nested(outer: string, inner: string) {
    && |outer| < |inner| <= |outer| + MAX_TOPIC - 1
    && inner[..|outer| + 1] == outer + ":"
    && (|inner| > |outer| + 1 ==> inner[|outer| + 1] != '/')
  }

  predicate Collide(t1: string, t2: string) {
    t1 == t2 || Nested(t1, t2) || Nested(t2, t1)
  }

  lemma SharedKeyCollides(t1: string, x1: string, t2: string, x2: string)
    requires IsTopic(x1) && IsTopic(x2) && TenantTopic(t1, x1) == TenantTopic(t2, x2)
    ensures Collide(t1, t2)
  {
    if |t1| == |t2| {
      assert t1 == TenantTopic(t1, x1)[..|t1|] == TenantTopic(t2, x2)[..|t2|] == t2;
    } else if |t1| < |t2| {
      SharedKeyNests(t1, x1, t2, x2);
    } else {
      SharedKeyNests(t2, x2, t1, x1);
    }
  }

  lemma SharedKeyNests(t1: string, x1: string, t2: string, x2: string)
    requires IsTopic(x1) && IsTopic(x2) && TenantTopic(t1, x1) == TenantTopic(t2, x2) && |t1| < |t2|
    ensures Nested(t1, t2)
  {
    var key := TenantTopic(t1, x1);
    assert t2 == key[..|t2|];
    assert t2[..|t1| + 1] == key[..|t1| + 1] == t1 + ":";
    assert |key| == |t1| + 1 + |x1| == |t2| + 1 + |x2|;
    if |t2| > |t1| + 1 {
      assert t2[|t1| + 1] == key[|t1| + 1] == x1[0];
    }
  }

  /** Topic names under which two colliding tenants meet. */
  function Meeting(t1: string, t2: string): (string, string)
    requires Collide(t1, t2)
  {
    if t1 == t2 then ("a", "a")
    else if Nested(t1, t2) then (t2[|t1| + 1..] + ":a", "a")
    else ("a", t1[|t2| + 1..] + ":a")
  }

  lemma NestedMeet(outer: string, inner: string)
    requires Nested(outer, inner)
    ensures var rest := inner[|outer| + 1..] + ":a";
            IsTopic(rest) && IsTopic("a") && TenantTopic(outer, rest) == TenantTopic(inner, "a")
  {
    var w := inner[|outer| + 1..];
    assert inner == outer + ":" + w;
    assert (outer + ":") + (w + ":a") == (outer + ":" + w) + ":a";
    PrintableIsNoSpace('a');
  }

  /** Two tenants can be given the same storage key exactly when they collide. */
  lemma SharedKeyExactly(t1: string, t2: string)
    ensures Collide(t1, t2)
       <==> exists x1, x2 :: TenantTopic(t1, NormalizeTopic(x1)) == TenantTopic(t2, NormalizeTopic(x2))
  {
    if Collide(t1, t2) {
      var (x1, x2) := Meeting(t1, t2);
      PrintableIsNoSpace('a');
      if Nested(t1, t2) { NestedMeet(t1, t2); } else if Nested(t2, t1) { NestedMeet(t2, t1); }
      EveryTopicArises(x1);
      EveryTopicArises(x2);
      assert TenantTopic(t1, NormalizeTopic(Spelling(x1))) == TenantTopic(t2, NormalizeTopic(Spelling(x2)));
    }
    if x1, x2 :| TenantTopic(t1, NormalizeTopic(x1)) == TenantTopic(t2, NormalizeTopic(x2)) {
      NormalizedIsTopic(x1);
      NormalizedIsTopic(x2);
      SharedKeyCollides(t1, NormalizeTopic(x1), t2, NormalizeTopic(x2));
    }
  }

  /** In particular, tenants without a ':' in their ids share no key with any other such tenant. */
  lemma PlainTenantsApart(t1: string, t2: string)
    requires ':' !in t1 && ':' !in t2
    ensures Collide(t1, t2) <==> t1 == t2
  {
    NestedHasColon(t1, t2);
    NestedHasColon(t2, t1);
  }

  lemma NestedHasColon(outer: string, inner: string)
    ensures Nested(outer, inner) ==> ':' in inner
  {
    if Nested(outer, inner) {
      assert inner[|outer|] == (outer + ":")[|outer|];
    }
  }
}
