/**
 Real topic names: one pass of placeholder substitution over a name template, and the copy of
 versioned topics to the other namespace of a blue/green domain, which relies on the namespace
 placeholder to keep the copy's name apart from its source's.
 */
module TopicNaming {
  import opened Wrappers

  datatype Token = NameBraces | NamePercent | TenantBraces | TenantPercent | NamespaceBraces | NamespacePercent

  datatype Values = Values(name: string, tenantId: string, namespace: string)

  const TOKENS: seq<Token> :=
    [NameBraces, NamePercent, TenantBraces, TenantPercent, NamespaceBraces, NamespacePercent]

  const NAMESPACE_BRACES := "{{namespace}}"
  const NAMESPACE_PERCENT := "%namespace%"

  function Text(t: Token): string {
    match t
    case NameBraces => "{{name}}"
    case NamePercent => "%name%"
    case TenantBraces => "{{tenantId}}"
    case TenantPercent => "%tenantId%"
    case NamespaceBraces => NAMESPACE_BRACES
    case NamespacePercent => NAMESPACE_PERCENT
  }

  function Value(t: Token, v: Values): string {
    match t
    case NameBraces => v.name
    case NamePercent => v.name
    case TenantBraces => v.tenantId
    case TenantPercent => v.tenantId
    case NamespaceBraces => v.namespace
    case NamespacePercent => v.namespace
  }

  /** The first token of `ts`, in that order, that the text starts with. */
  function Lookup(ts: seq<Token>, s: string): (r: Option<Token>)
    ensures r.Some? ==> r.value in ts && Text(r.value) <= s
    ensures r.None? ==> forall t :: t in ts ==> !(Text(t) <= s)
  {
    if ts == [] then None
    else if Text(ts[0]) <= s then Some(ts[0])
    else Lookup(ts[1..], s)
  }

  lemma TokensAreNotEmpty(t: Token)
    ensures |Text(t)| > 1
  {}

  /** strings.NewReplacer(...).Replace: left to right, no overlap, tokens compared in argument order. */
  function Replace(ts: seq<Token>, s: string, v: Values): string
    decreases |s|
  {
    if s == "" then ""
    else
      match Lookup(ts, s)
      case Some(t) => TokensAreNotEmpty(t); Value(t, v) + Replace(ts, s[|Text(t)|..], v)
      case None => [s[0]] + Replace(ts, s[1..], v)
  }

  // ---- The template, read once -----------------------------------------------------------------

  datatype Piece = Literal(c: char) | Hole(token: Token)

  function Pieces(ts: seq<Token>, s: string): seq<Piece>
    decreases |s|
  {
    if s == "" then []
    else
      match Lookup(ts, s)
      case Some(t) => TokensAreNotEmpty(t); [Hole(t)] + Pieces(ts, s[|Text(t)|..])
      case None => [Literal(s[0])] + Pieces(ts, s[1..])
  }

  function Fill(ps: seq<Piece>, v: Values): string {
    if ps == [] then ""
    else (match ps[0] case Literal(c) => [c] case Hole(t) => Value(t, v)) + Fill(ps[1..], v)
  }

  datatype Part = NamePart | TenantPart | NamespacePart

  predicate IsHoleOf(p: Piece, part: Part) {
    p.Hole? && match part
               case NamePart => p.token in {NameBraces, NamePercent}
               case TenantPart => p.token in {TenantBraces, TenantPercent}
               case NamespacePart => p.token in {NamespaceBraces, NamespacePercent}
  }

  predicate Mentions(ps: seq<Piece>, part: Part) {
    exists i :: 0 <= i < |ps| && IsHoleOf(ps[i], part)
  }

  predicate MentionsNamespace(ps: seq<Piece>) {
    Mentions(ps, NamespacePart)
  }

  /** Where a part goes is fixed by the template alone. */
  predicate Substitutes(template: string, part: Part) {
    Mentions(Pieces(TOKENS, template), part)
  }

  predicate Substituted(template: string) {
    Substitutes(template, NamespacePart)
  }

  function PartOf(v: Values, part: Part): string {
    match part
    case NamePart => v.name
    case TenantPart => v.tenantId
    case NamespacePart => v.namespace
  }

  /** The same values but for one part. */
  function With(v: Values, part: Part, text: string): (w: Values)
    ensures PartOf(w, part) == text
    ensures forall other: Part :: other != part ==> PartOf(w, other) == PartOf(v, other)
  {
    match part
    case NamePart => v.(name := text)
    case TenantPart => v.(tenantId := text)
    case NamespacePart => v.(namespace := text)
  }

  /** Values are put into the holes of the template and never read again. */
  lemma {:induction false} ReplaceFillsHoles(ts: seq<Token>, s: string, v: Values)
    ensures Replace(ts, s, v) == Fill(Pieces(ts, s), v)
    decreases |s|
  {
    if s != "" {
      match Lookup(ts, s)
      case Some(t) =>
        TokensAreNotEmpty(t);
        ReplaceFillsHoles(ts, s[|Text(t)|..], v);
      case None => ReplaceFillsHoles(ts, s[1..], v);
    }
  }

  // ---- No token is a prefix of another ---------------------------------------------------------

  lemma TokensDoNotClash(t: Token, u: Token, s: string)
    requires Text(t) <= s && Text(u) <= s
    ensures t == u
  {
    var a, b := Text(t), Text(u);
    var n := if |a| <= |b| then |a| else |b|;
    assert a[1] == s[1] == b[1] && a[2] == s[2] == b[2] && a[n - 1] == s[n - 1] == b[n - 1];
  }

  ghost predicate Complete(ts: seq<Token>) {
    forall t: Token :: t in ts
  }

  lemma TokenIsFound(ts: seq<Token>, s: string, t: Token)
    requires Complete(ts) && Text(t) <= s
    ensures Lookup(ts, s) == Some(t)
  {
    assert t in ts;
    TokensDoNotClash(t, Lookup(ts, s).value, s);
  }

  /** Every order of the tokens, with or without repetitions, gives the same names. */
  lemma {:induction false} TokenOrderIsIrrelevant(ts: seq<Token>, us: seq<Token>, s: string, v: Values)
    requires Complete(ts) && Complete(us)
    ensures Replace(ts, s, v) == Replace(us, s, v)
    decreases |s|
  {
    if s != "" {
      var a := Lookup(ts, s);
      if a.Some? {
        TokenIsFound(us, s, a.value);
        TokensAreNotEmpty(a.value);
        TokenOrderIsIrrelevant(ts, us, s[|Text(a.value)|..], v);
      } else {
        assert Lookup(us, s) == None;
        TokenOrderIsIrrelevant(ts, us, s[1..], v);
      }
    }
  }

  lemma AllTokens()
    ensures Complete(TOKENS)
  {
    forall t: Token ensures t in TOKENS {
      match t
      case NameBraces => assert TOKENS[0] == t;
      case NamePercent => assert TOKENS[1] == t;
      case TenantBraces => assert TOKENS[2] == t;
      case TenantPercent => assert TOKENS[3] == t;
      case NamespaceBraces => assert TOKENS[4] == t;
      case NamespacePercent => assert TOKENS[5] == t;
    }
  }

  // ---- What one pass does, in words of the text ------------------------------------------------

  lemma TokenRun(t: Token, rest: string, v: Values)
    ensures Replace(TOKENS, Text(t) + rest, v) == Value(t, v) + Replace(TOKENS, rest, v)
  {
    AllTokens();
    TokensAreNotEmpty(t);
    TokenIsFound(TOKENS, Text(t) + rest, t);
    assert (Text(t) + rest)[|Text(t)|..] == rest;
  }

  /** Each of the six placeholders gives way to its value, and reading goes on behind it. */
  lemma PlaceholdersGiveWay(rest: string, v: Values)
    ensures Replace(TOKENS, "{{name}}" + rest, v) == v.name + Replace(TOKENS, rest, v)
    ensures Replace(TOKENS, "%name%" + rest, v) == v.name + Replace(TOKENS, rest, v)
    ensures Replace(TOKENS, "{{tenantId}}" + rest, v) == v.tenantId + Replace(TOKENS, rest, v)
    ensures Replace(TOKENS, "%tenantId%" + rest, v) == v.tenantId + Replace(TOKENS, rest, v)
    ensures Replace(TOKENS, "{{namespace}}" + rest, v) == v.namespace + Replace(TOKENS, rest, v)
    ensures Replace(TOKENS, "%namespace%" + rest, v) == v.namespace + Replace(TOKENS, rest, v)
  {
    forall t: Token ensures Replace(TOKENS, Text(t) + rest, v) == Value(t, v) + Replace(TOKENS, rest, v) {
      TokenRun(t, rest, v);
    }
    assert Text(NameBraces) == "{{name}}" && Text(NamePercent) == "%name%";
    assert Text(TenantBraces) == "{{tenantId}}" && Text(TenantPercent) == "%tenantId%";
    assert Text(NamespaceBraces) == "{{namespace}}" && Text(NamespacePercent) == "%namespace%";
  }

  lemma PlainStart(s: string, v: Values)
    requires s != "" && s[0] != '{' && s[0] != '%'
    ensures Replace(TOKENS, s, v) == [s[0]] + Replace(TOKENS, s[1..], v)
  {
    if Lookup(TOKENS, s).Some? {
      var t := Lookup(TOKENS, s).value;
      assert Text(t)[0] == s[0];
    }
  }

  lemma Associate(a: string, b: string, c: string)
    ensures (a + b) + c == a + (b + c)
  {}

  /** Text without an opening brace or percent sign stays as it is. */
  lemma {:induction false} PlainRun(s: string, k: nat, m: nat, v: Values)
    requires k <= m <= |s| && forall i :: k <= i < m ==> s[i] != '{' && s[i] != '%'
    ensures Replace(TOKENS, s[k..], v) == s[k..m] + Replace(TOKENS, s[m..], v)
    decreases m - k
  {
    if k < m {
      PlainStart(s[k..], v);
      assert s[k..][1..] == s[k + 1..];
      PlainRun(s, k + 1, m, v);
      Associate([s[k]], s[k + 1..m], Replace(TOKENS, s[m..], v));
      assert [s[k]] + s[k + 1..m] == s[k..m];
    }
  }

  /** A placeholder that stands at k, where reading arrives, gives way to its value. */
  lemma TokenAt(s: string, k: nat, t: Token, v: Values)
    requires k <= |s| && Text(t) <= s[k..]
    ensures Replace(TOKENS, s[k..], v) == Value(t, v) + Replace(TOKENS, s[k + |Text(t)|..], v)
  {
    AllTokens();
    TokensAreNotEmpty(t);
    TokenIsFound(TOKENS, s[k..], t);
    assert |Text(t)| <= |s[k..]|;
    assert s[k..][|Text(t)|..] == s[k + |Text(t)|..];
  }

  // ---- Injectivity in each part ----------------------------------------------------------------

  lemma MentionsCons(p: Piece, rest: seq<Piece>, part: Part)
    ensures Mentions([p] + rest, part) <==> IsHoleOf(p, part) || Mentions(rest, part)
  {
    var all := [p] + rest;
    assert IsHoleOf(p, part) ==> IsHoleOf(all[0], part);
    if Mentions(rest, part) {
      var i :| 0 <= i < |rest| && IsHoleOf(rest[i], part);
      assert IsHoleOf(all[i + 1], part);
    }
    if Mentions(all, part) {
      var i :| 0 <= i < |all| && IsHoleOf(all[i], part);
      assert i > 0 ==> IsHoleOf(rest[i - 1], part);
    }
  }

  lemma {:induction false} LongerPartLongerName(ps: seq<Piece>, v: Values, part: Part, text: string)
    requires |PartOf(v, part)| <= |text|
    ensures |Fill(ps, v)| <= |Fill(ps, With(v, part, text))|
    ensures Mentions(ps, part) && |PartOf(v, part)| < |text| ==> |Fill(ps, v)| < |Fill(ps, With(v, part, text))|
  {
    if ps != [] {
      LongerPartLongerName(ps[1..], v, part, text);
      assert ps == [ps[0]] + ps[1..];
      MentionsCons(ps[0], ps[1..], part);
    }
  }

  lemma {:induction false} SameLengthDiffers(ps: seq<Piece>, v: Values, part: Part, text: string)
    requires |PartOf(v, part)| == |text|
    requires Mentions(ps, part) && Fill(ps, v) == Fill(ps, With(v, part, text))
    ensures PartOf(v, part) == text
  {
    var w := With(v, part, text);
    var a := match ps[0] case Literal(c) => [c] case Hole(t) => Value(t, v);
    var b := match ps[0] case Literal(c) => [c] case Hole(t) => Value(t, w);
    assert |a| == |b|;
    assert Fill(ps, v) == a + Fill(ps[1..], v) && Fill(ps, w) == b + Fill(ps[1..], w);
    assert a == Fill(ps, v)[..|a|] == Fill(ps, w)[..|b|] == b;
    if !IsHoleOf(ps[0], part) {
      assert Fill(ps[1..], v) == Fill(ps, v)[|a|..] == Fill(ps[1..], w);
      assert ps == [ps[0]] + ps[1..];
      MentionsCons(ps[0], ps[1..], part);
      SameLengthDiffers(ps[1..], v, part, text);
    }
  }

  lemma {:induction false} UnmentionedPartIsUnused(ps: seq<Piece>, v: Values, part: Part, text: string)
    requires !Mentions(ps, part)
    ensures Fill(ps, v) == Fill(ps, With(v, part, text))
  {
    if ps != [] {
      assert ps == [ps[0]] + ps[1..];
      MentionsCons(ps[0], ps[1..], part);
      UnmentionedPartIsUnused(ps[1..], v, part, text);
    }
  }

  /**
   Two names, two tenants or two namespaces give one topic name exactly when they are equal or the
   template substitutes neither.
   */
  lemma NameDeterminesPartIff(template: string, v: Values, part: Part, text: string)
    ensures Replace(TOKENS, template, v) == Replace(TOKENS, template, With(v, part, text))
            <==> PartOf(v, part) == text || !Substitutes(template, part)
  {
    var w := With(v, part, text);
    var ps := Pieces(TOKENS, template);
    ReplaceFillsHoles(TOKENS, template, v);
    ReplaceFillsHoles(TOKENS, template, w);
    if !Mentions(ps, part) {
      UnmentionedPartIsUnused(ps, v, part, text);
    } else if Fill(ps, v) == Fill(ps, w) {
      assert With(w, part, PartOf(v, part)) == v;
      if |PartOf(v, part)| <= |text| {
        LongerPartLongerName(ps, v, part, text);
      } else {
        LongerPartLongerName(ps, w, part, PartOf(v, part));
      }
      SameLengthDiffers(ps, v, part, text);
    }
  }

  /** Two namespaces give the same name exactly when they are equal or the template substitutes neither. */
  lemma NameDeterminesNamespaceIff(template: string, v: Values, namespace: string)
    ensures Replace(TOKENS, template, v) == Replace(TOKENS, template, v.(namespace := namespace))
            <==> v.namespace == namespace || !Substituted(template)
  {
    NameDeterminesPartIff(template, v, NamespacePart, namespace);
  }

  // ---- Does the check on the template guarantee a substitution? --------------------------------

  predicate StartsAt(s: string, part: string, k: int) {
    0 <= k && k + |part| <= |s| && s[k..k + |part|] == part
  }

  predicate Contains(s: string, part: string) {
    exists k :: 0 <= k <= |s| && StartsAt(s, part, k)
  }

  /** The test copyVersionedTopics makes. */
  predicate PassesCheck(template: string) {
    template == "" || Contains(template, NAMESPACE_BRACES) || Contains(template, NAMESPACE_PERCENT)
  }

  /** What stands at the start of the template: a placeholder or one literal character. */
  function Width(ts: seq<Token>, s: string): (n: nat)
    requires s != ""
    ensures 0 < n <= |s|
  {
    var found := Lookup(ts, s);
    if found.Some? then TokensAreNotEmpty(found.value); |Text(found.value)| else 1
  }

  /** The template mentions the namespace at its start or in the rest. */
  lemma SubstitutedStep(ts: seq<Token>, s: string)
    requires s != ""
    ensures MentionsNamespace(Pieces(ts, s)) <==>
              || Lookup(ts, s) in {Some(NamespaceBraces), Some(NamespacePercent)}
              || MentionsNamespace(Pieces(ts, s[Width(ts, s)..]))
  {
    var found := Lookup(ts, s);
    var p := if found.Some? then Hole(found.value) else Literal(s[0]);
    assert Pieces(ts, s) == [p] + Pieces(ts, s[Width(ts, s)..]);
    MentionsCons(p, Pieces(ts, s[Width(ts, s)..]), NamespacePart);
  }

  /** No two braces open inside a token. */
  lemma NoOpenBracesInside(t: Token, p: nat)
    requires 0 < p < |Text(t)|
    ensures Text(t)[p] == '{' ==> p + 1 < |Text(t)| && Text(t)[p + 1] != '{'
  {
    var a := Text(t);
    match t
    case NameBraces => assert a[1] == '{' && a[2] == 'n'; assert a[2..] == "name}}";
    case TenantBraces => assert a[1] == '{' && a[2] == 't'; assert a[2..] == "tenantId}}";
    case NamespaceBraces => assert a[1] == '{' && a[2] == 'n'; assert a[2..] == "namespace}}";
    case _ =>
  }

  /** A percent sign stands inside a token only as its last character. */
  lemma NoPercentInside(t: Token, p: nat)
    requires 0 < p < |Text(t)| && Text(t)[p] == '%'
    ensures p == |Text(t)| - 1 && t in {NamePercent, TenantPercent, NamespacePercent}
  {}

  lemma BracesAreNotCut(s: string, t: Token, k: nat)
    requires Text(t) <= s && 0 < k && StartsAt(s, NAMESPACE_BRACES, k)
    ensures k >= |Text(t)|
  {
    TokensAreNotEmpty(t);
    var p := if k < |Text(t)| then k else 1;
    NoOpenBracesInside(t, p);
    assert s[k] == s[k..k + 13][0] == '{' && s[k + 1] == s[k..k + 13][1] == '{';
    assert Text(t)[p] == s[p] && (p + 1 < |Text(t)| ==> Text(t)[p + 1] == s[p + 1]);
  }

  lemma StartsAtInRest(s: string, part: string, k: nat, n: nat)
    requires n <= k && StartsAt(s, part, k)
    ensures StartsAt(s[n..], part, k - n)
  {
    assert s[n..][k - n..k - n + |part|] == s[k..k + |part|];
  }

  lemma NamespaceIsFound(ts: seq<Token>, s: string, t: Token)
    requires Complete(ts) && t in {NamespaceBraces, NamespacePercent} && StartsAt(s, Text(t), 0)
    ensures s != "" && MentionsNamespace(Pieces(ts, s))
  {
    TokensAreNotEmpty(t);
    assert Text(t) <= s by { assert s[0..0 + |Text(t)|] == s[..|Text(t)|]; }
    TokenIsFound(ts, s, t);
    SubstitutedStep(ts, s);
  }

  /** Further on, the braces stand in the rest of the template. */
  lemma BracesInRest(ts: seq<Token>, s: string, k: nat)
    requires 0 < k && StartsAt(s, NAMESPACE_BRACES, k)
    ensures s != "" && Width(ts, s) <= k && StartsAt(s[Width(ts, s)..], NAMESPACE_BRACES, k - Width(ts, s))
  {
    assert |s| > 0;
    if Lookup(ts, s).Some? {
      BracesAreNotCut(s, Lookup(ts, s).value, k);
    }
    StartsAtInRest(s, NAMESPACE_BRACES, k, Width(ts, s));
  }

  /** `{{namespace}}` anywhere in the template is substituted. */
  lemma {:induction false} BracesAreSubstituted(ts: seq<Token>, s: string, k: nat)
    requires Complete(ts) && StartsAt(s, NAMESPACE_BRACES, k)
    ensures MentionsNamespace(Pieces(ts, s))
    decreases |s|
  {
    if k == 0 {
      NamespaceIsFound(ts, s, NamespaceBraces);
    } else {
      BracesInRest(ts, s, k);
      SubstitutedStep(ts, s);
      BracesAreSubstituted(ts, s[Width(ts, s)..], k - Width(ts, s));
    }
  }

  const NAME_OVERLAP := "%name%namespace%"
  const TENANT_OVERLAP := "%tenantId%namespace%"

  /** The percent form shares no percent sign with another placeholder. */
  predicate NoOverlap(template: string) {
    !Contains(template, NAME_OVERLAP) && !Contains(template, TENANT_OVERLAP)
  }

  lemma ContainsInRest(s: string, n: nat, part: string)
    requires n <= |s| && Contains(s[n..], part)
    ensures Contains(s, part)
  {
    var k :| 0 <= k <= |s[n..]| && StartsAt(s[n..], part, k);
    assert s[n + k..n + k + |part|] == s[n..][k..k + |part|];
    assert StartsAt(s, part, n + k);
  }

  lemma StillNoOverlap(s: string, n: nat)
    requires NoOverlap(s) && n <= |s|
    ensures NoOverlap(s[n..])
  {
    if Contains(s[n..], NAME_OVERLAP) {
      ContainsInRest(s, n, NAME_OVERLAP);
    }
    if Contains(s[n..], TENANT_OVERLAP) {
      ContainsInRest(s, n, TENANT_OVERLAP);
    }
  }

  /** A placeholder read over the start of `%namespace%` shares exactly its first percent sign. */
  lemma PercentIsCutByOverlap(s: string, t: Token, k: nat)
    requires Text(t) <= s && 0 < k < |Text(t)| && StartsAt(s, NAMESPACE_PERCENT, k)
    ensures t in {NamePercent, TenantPercent, NamespacePercent}
    ensures t == NamePercent ==> Contains(s, NAME_OVERLAP)
    ensures t == TenantPercent ==> Contains(s, TENANT_OVERLAP)
  {
    var part := NAMESPACE_PERCENT;
    assert Text(t)[k] == s[k] == s[k..k + |part|][0] == '%';
    NoPercentInside(t, k);
    assert s[..k + |part|] == s[..k] + part;
    assert s[..k] == Text(t)[..k];
    if t == NamePercent {
      assert s[0..k + |part|] == NAME_OVERLAP;
      assert StartsAt(s, NAME_OVERLAP, 0);
    } else if t == TenantPercent {
      assert s[0..k + |part|] == TENANT_OVERLAP;
      assert StartsAt(s, TENANT_OVERLAP, 0);
    }
  }

  /** Further on, the percent form stands in the rest of the template, or is what the placeholder at its start is. */
  lemma PercentInRest(ts: seq<Token>, s: string, k: nat)
    requires 0 < k && StartsAt(s, NAMESPACE_PERCENT, k) && NoOverlap(s)
    ensures s != "" && NoOverlap(s[Width(ts, s)..])
    ensures Lookup(ts, s) == Some(NamespacePercent)
            || (Width(ts, s) <= k && StartsAt(s[Width(ts, s)..], NAMESPACE_PERCENT, k - Width(ts, s)))
  {
    assert |s| > 0;
    StillNoOverlap(s, Width(ts, s));
    if k < Width(ts, s) {
      PercentIsCutByOverlap(s, Lookup(ts, s).value, k);
    } else {
      StartsAtInRest(s, NAMESPACE_PERCENT, k, Width(ts, s));
    }
  }

  /** `%namespace%` is substituted unless its first percent sign closes another placeholder. */
  lemma {:induction false} PercentIsSubstituted(ts: seq<Token>, s: string, k: nat)
    requires Complete(ts) && StartsAt(s, NAMESPACE_PERCENT, k) && NoOverlap(s)
    ensures MentionsNamespace(Pieces(ts, s))
    decreases |s|
  {
    if k == 0 {
      NamespaceIsFound(ts, s, NamespacePercent);
    } else {
      PercentInRest(ts, s, k);
      SubstitutedStep(ts, s);
      if Lookup(ts, s) != Some(NamespacePercent) {
        PercentIsSubstituted(ts, s[Width(ts, s)..], k - Width(ts, s));
      }
    }
  }

  /** Conversely the check rejects no template that would have been substituted. */
  lemma {:induction false} SubstitutedPassesCheck(ts: seq<Token>, s: string)
    requires MentionsNamespace(Pieces(ts, s))
    ensures s != "" && PassesCheck(s)
    decreases |s|
  {
    SubstitutedStep(ts, s);
    var found := Lookup(ts, s);
    var n := Width(ts, s);
    if found in {Some(NamespaceBraces), Some(NamespacePercent)} {
      assert s[0..n] == Text(found.value);
      assert StartsAt(s, Text(found.value), 0);
    } else {
      SubstitutedPassesCheck(ts, s[n..]);
      if Contains(s[n..], NAMESPACE_BRACES) {
        ContainsInRest(s, n, NAMESPACE_BRACES);
      } else {
        ContainsInRest(s, n, NAMESPACE_PERCENT);
      }
    }
  }

  // ---- Resolving a topic's real name -----------------------------------------------------------

  datatype Classifier = Classifier(name: string, namespace: string, tenantId: string)

  datatype Domain = Domain(origin: string, peer: string)

  datatype Error = DomainLookup | TooLong | BadRequest | Rejected

  const TOPIC_LENGTH_LIMIT := 249

  function DefaultTemplate(tenantId: string): string {
    if tenantId != "" then "maas.{{namespace}}.{{tenantId}}.{{name}}" else "maas.{{namespace}}.{{name}}"
  }

  function EffectiveTemplate(template: string, c: Classifier): string {
    if template == "" then DefaultTemplate(c.tenantId) else template
  }

  /** resolveTopicName; `find` is the blue/green domain lookup. Strings stand for their bytes. */
  function ResolveTopicName(template: string, c: Classifier, versioned: bool,
                            find: string -> Result<Option<Domain>, Error>): Result<string, Error>
  {
    var found := if versioned then Success(None) else find(c.namespace);
    if found.Failure? then Failure(DomainLookup)
    else
      var namespace := if found.value.Some? then found.value.value.origin else c.namespace;
      var name := Replace(TOKENS, EffectiveTemplate(template, c), Values(c.name, c.tenantId, namespace));
      if |name| > TOPIC_LENGTH_LIMIT then Failure(TooLong) else Success(name)
  }

  lemma Dot(s: string, k: nat, v: Values)
    requires k < |s| && s[k] == '.'
    ensures Replace(TOKENS, s[k..], v) == "." + Replace(TOKENS, s[k + 1..], v)
  {
    PlainStart(s[k..], v);
    assert s[k..][1..] == s[k + 1..];
  }

  lemma NameAtEnd(s: string, k: nat, v: Values)
    requires k + 9 == |s| && s[k] == '.' && Text(NameBraces) <= s[k + 1..]
    ensures Replace(TOKENS, s[k..], v) == "." + v.name
  {
    Dot(s, k, v);
    TokenAt(s, k + 1, NameBraces, v);
    assert s[k + 9..] == "";
  }

  lemma TenantThenName(s: string, k: nat, v: Values)
    requires k < |s| && s[k] == '.' && Text(TenantBraces) <= s[k + 1..]
    requires k + 22 == |s| && s[k + 13] == '.' && Text(NameBraces) <= s[k + 14..]
    ensures Replace(TOKENS, s[k..], v) == "." + (v.tenantId + ("." + v.name))
  {
    Dot(s, k, v);
    TokenAt(s, k + 1, TenantBraces, v);
    NameAtEnd(s, k + 13, v);
  }

  lemma NamespaceThenRest(s: string, v: Values)
    requires |s| >= 18 && s[0..5] == "maas." && Text(NamespaceBraces) <= s[5..]
    ensures Replace(TOKENS, s, v) == "maas." + (v.namespace + Replace(TOKENS, s[18..], v))
  {
    forall i | 0 <= i < 5 ensures s[i] != '{' && s[i] != '%' {
      assert s[i] == s[0..5][i];
    }
    PlainRun(s, 0, 5, v);
    TokenAt(s, 5, NamespaceBraces, v);
    assert s[0..] == s;
  }

  lemma ShapeOfDefault()
    ensures var s := "maas.{{namespace}}.{{name}}";
            && |s| == 27 && s[0..5] == "maas." && Text(NamespaceBraces) <= s[5..]
            && s[18] == '.' && Text(NameBraces) <= s[19..]
  {
    var s := "maas.{{namespace}}.{{name}}";
    assert forall i :: 0 <= i < 5 ==> s[i] == "maas."[i];
    assert forall i :: 0 <= i < 13 ==> s[5 + i] == Text(NamespaceBraces)[i];
    assert forall i :: 0 <= i < 8 ==> s[19 + i] == Text(NameBraces)[i];
  }

  lemma StartOfTenantDefault()
    ensures var s := "maas.{{namespace}}.{{tenantId}}.{{name}}";
            |s| == 40 && s[0..5] == "maas." && Text(NamespaceBraces) <= s[5..]
  {
    var s := "maas.{{namespace}}.{{tenantId}}.{{name}}";
    assert forall i :: 0 <= i < 5 ==> s[i] == "maas."[i];
    assert forall i :: 0 <= i < 13 ==> s[5 + i] == Text(NamespaceBraces)[i];
  }

  lemma EndOfTenantDefault()
    ensures var s := "maas.{{namespace}}.{{tenantId}}.{{name}}";
            |s| == 40 && s[18] == '.' && Text(TenantBraces) <= s[19..] && s[31] == '.' && Text(NameBraces) <= s[32..]
  {
    var s := "maas.{{namespace}}.{{tenantId}}.{{name}}";
    assert forall i :: 0 <= i < 12 ==> s[19 + i] == Text(TenantBraces)[i];
    assert forall i :: 0 <= i < 8 ==> s[32 + i] == Text(NameBraces)[i];
  }

  /** The name the defaults spell: `maas`, the namespace, the tenant if there is one, and the topic's name. */
  lemma DefaultName(c: Classifier, namespace: string)
    ensures Replace(TOKENS, DefaultTemplate(c.tenantId), Values(c.name, c.tenantId, namespace)) ==
              "maas." + (namespace + (if c.tenantId == "" then "." + c.name
                                      else "." + (c.tenantId + ("." + c.name))))
  {
    var s, v := DefaultTemplate(c.tenantId), Values(c.name, c.tenantId, namespace);
    if c.tenantId == "" {
      ShapeOfDefault();
      NamespaceThenRest(s, v);
      NameAtEnd(s, 18, v);
    } else {
      StartOfTenantDefault();
      EndOfTenantDefault();
      NamespaceThenRest(s, v);
      TenantThenName(s, 18, v);
    }
  }

  /**
   The name a topic gets without a template of its own: `maas`, the namespace, the tenant if it has one and
   its name, with dots between, if that is no longer than a topic's name may be. An unversioned topic of a
   blue/green domain takes the origin's namespace.
   */
  lemma DefaultResolves(c: Classifier, versioned: bool, find: string -> Result<Option<Domain>, Error>)
    requires !versioned ==> find(c.namespace).Success?
    ensures var domain := if versioned then None else find(c.namespace).value;
            var namespace := if domain.Some? then domain.value.origin else c.namespace;
            var name := "maas." + (namespace + (if c.tenantId == "" then "." + c.name
                                                else "." + (c.tenantId + ("." + c.name))));
            ResolveTopicName("", c, versioned, find) == if |name| <= 249 then Success(name) else Failure(TooLong)
  {
    var domain := if versioned then None else find(c.namespace).value;
    DefaultName(c, if domain.Some? then domain.value.origin else c.namespace);
  }

  /** A template of its own is what a topic's name is made from, with the same namespace and the same limit. */
  lemma TemplateResolves(template: string, c: Classifier, versioned: bool,
                         find: string -> Result<Option<Domain>, Error>)
    requires template != "" && (!versioned ==> find(c.namespace).Success?)
    ensures var domain := if versioned then None else find(c.namespace).value;
            var namespace := if domain.Some? then domain.value.origin else c.namespace;
            var name := Replace(TOKENS, template, Values(c.name, c.tenantId, namespace));
            ResolveTopicName(template, c, versioned, find)
            == if |name| <= 249 then Success(name) else Failure(TooLong)
  {}

  lemma DefaultsMentionNamespace(tenantId: string)
    ensures StartsAt(DefaultTemplate(tenantId), NAMESPACE_BRACES, 5)
  {
    var s := DefaultTemplate(tenantId);
    assert forall i :: 0 <= i < 13 ==> s[5 + i] == NAMESPACE_BRACES[i];
  }

  lemma DefaultsAreSubstituted(ts: seq<Token>, tenantId: string)
    requires Complete(ts)
    ensures MentionsNamespace(Pieces(ts, DefaultTemplate(tenantId)))
  {
    DefaultsMentionNamespace(tenantId);
    BracesAreSubstituted(ts, DefaultTemplate(tenantId), 5);
  }

  /** What the check does guarantee: it is enough once the percent form does not overlap. */
  lemma CheckGuaranteesSubstitution(template: string, c: Classifier)
    requires PassesCheck(template)
    requires template == "" || Contains(template, NAMESPACE_BRACES) || NoOverlap(template)
    ensures Substituted(EffectiveTemplate(template, c))
  {
    if template == "" {
      AllTokens();
      DefaultsAreSubstituted(TOKENS, c.tenantId);
    } else if Contains(template, NAMESPACE_BRACES) {
      var k :| 0 <= k <= |template| && StartsAt(template, NAMESPACE_BRACES, k);
      AllTokens();
      BracesAreSubstituted(TOKENS, template, k);
    } else {
      var k :| 0 <= k <= |template| && StartsAt(template, NAMESPACE_PERCENT, k);
      AllTokens();
      PercentIsSubstituted(TOKENS, template, k);
    }
  }

  /** A versioned topic copied to another namespace never resolves to the real name of its source. */
  lemma CopyNeverCollides(template: string, c: Classifier, to: string, find: string -> Result<Option<Domain>, Error>)
    requires PassesCheck(template) && to != c.namespace
    requires template == "" || Contains(template, NAMESPACE_BRACES) || NoOverlap(template)
    ensures var source := ResolveTopicName(template, c, true, find);
            var copy := ResolveTopicName(template, c.(namespace := to), true, find);
            source.Success? && copy.Success? ==> source.value != copy.value
  {
    CheckGuaranteesSubstitution(template, c);
    CopyCollidesIff(template, c, to, find);
  }

  /**
   Exactly when a copy that resolves collides: when reading its template once finds no namespace
   placeholder, whatever the check on the template said.
   */
  lemma CopyCollidesIff(template: string, c: Classifier, to: string, find: string -> Result<Option<Domain>, Error>)
    requires to != c.namespace
    ensures var source := ResolveTopicName(template, c, true, find);
            var copy := ResolveTopicName(template, c.(namespace := to), true, find);
            source.Success? && copy.Success? ==>
              (source.value == copy.value <==> !Substituted(EffectiveTemplate(template, c)))
  {
    NameDeterminesNamespaceIff(EffectiveTemplate(template, c), Values(c.name, c.tenantId, c.namespace), to);
  }

  /**
   In a domain a topic that is not versioned has one real name, whichever namespace asks, while a
   versioned topic with a substituted template has one per namespace.
   */
  lemma NamesInDomain(template: string, c: Classifier, d: Domain, find: string -> Result<Option<Domain>, Error>)
    requires d.origin != d.peer && find(d.origin) == find(d.peer) == Success(Some(d))
    ensures var (atOrigin, atPeer) := (c.(namespace := d.origin), c.(namespace := d.peer));
            && ResolveTopicName(template, atOrigin, false, find) == ResolveTopicName(template, atPeer, false, find)
            && ResolveTopicName(template, atPeer, false, find) == ResolveTopicName(template, atOrigin, true, find)
            && (Substituted(EffectiveTemplate(template, c)) ==>
                  var (a, b) := (ResolveTopicName(template, atOrigin, true, find),
                                 ResolveTopicName(template, atPeer, true, find));
                  a.Success? && b.Success? ==> a.value != b.value)
  {
    NameDeterminesNamespaceIff(EffectiveTemplate(template, c), Values(c.name, c.tenantId, d.origin), d.peer);
  }

  /** The check accepts `%name%namespace%`, which substitutes no namespace: the copy collides with its source. */
  lemma OverlappingTemplateCollides(c: Classifier, to: string, find: string -> Result<Option<Domain>, Error>)
    ensures PassesCheck(NAME_OVERLAP)
    ensures ResolveTopicName(NAME_OVERLAP, c, true, find)
         == ResolveTopicName(NAME_OVERLAP, c.(namespace := to), true, find)
  {
    var s, rest := NAME_OVERLAP, "namespace%";
    assert s == "%name" + NAMESPACE_PERCENT == Text(NamePercent) + rest;
    assert s[5..16] == NAMESPACE_PERCENT;
    assert StartsAt(s, NAMESPACE_PERCENT, 5);
    AllTokens();
    TokenIsFound(TOKENS, s, NamePercent);
    assert s[6..] == rest;
    SubstitutedStep(TOKENS, s);
    if Substituted(rest) {
      SubstitutedPassesCheck(TOKENS, rest);
    }
    NameDeterminesNamespaceIff(s, Values(c.name, c.tenantId, c.namespace), to);
  }

  // ---- Copying the versioned topics of a namespace ---------------------------------------------

  /** The stored creation request of a topic, as far as the copy looks at it. */
  datatype CreateRequest = Missing | Malformed | Named(template: string)

  class TopicRegistration {
    var id: nat
    var namespace: string
    var topic: string
    var classifier: Classifier
    const createReq: CreateRequest

    constructor (id: nat, topic: string, classifier: Classifier, createReq: CreateRequest)
      ensures this.id == id && this.topic == topic && this.classifier == classifier && this.createReq == createReq
    {
      this.id, this.namespace, this.topic := id, classifier.namespace, topic;
      this.classifier, this.createReq := classifier, createReq;
    }
  }

  predicate Copyable(r: CreateRequest) {
    r.Named? && PassesCheck(r.template)
  }

  /**
   What the creation does once the name is resolved: it stores a row under a new key, finds a topic with
   this classifier, or fails, perhaps after the key was assigned.
   */
  datatype Creation = Inserted(key: nat) | Found | Refused(key: nat)

  /** The name the creation resolves for a copy, the topic being versioned. */
  function CopyName(template: string, c: Classifier, find: string -> Result<Option<Domain>, Error>)
    : Result<string, Error>
  {
    ResolveTopicName(template, c, true, find)
  }

  function CreationError(name: Result<string, Error>, creation: Creation): Option<Error> {
    if name.Failure? then Some(name.error) else if creation.Refused? then Some(Rejected) else None
  }

  function NewId(name: Result<string, Error>, creation: Creation): nat {
    if name.Failure? || creation.Found? then 0 else creation.key
  }

  /** GetOrCreateTopic, as far as it changes the record it is given: the resolved name and the new key. */
  method Create(topic: TopicRegistration, creation: Creation, find: string -> Result<Option<Domain>, Error>)
    returns (err: Option<Error>)
    requires topic.id == 0
    modifies topic`topic, topic`id
    ensures var name := CopyName(old(topic.topic), topic.classifier, find);
            && topic.topic == (if name.Success? then name.value else "")
            && topic.id == NewId(name, creation)
            && err == CreationError(name, creation)
    ensures var name := ResolveTopicName(old(topic.topic), topic.classifier, true, find);
            match name
            case Failure(e) => topic.topic == "" && topic.id == 0 && err == Some(e)
            case Success(resolved) =>
              && topic.topic == resolved
              && (creation.Found? ==> topic.id == 0 && err.None?)
              && (creation.Inserted? ==> topic.id == creation.key && err.None?)
              && (creation.Refused? ==> topic.id == creation.key && err == Some(Rejected))
  {
    var name := CopyName(topic.topic, topic.classifier, find);
    if name.Failure? {
      topic.topic := "";
      return Some(name.error);
    }
    topic.topic := name.value;
    match creation {
      case Inserted(key) => topic.id, err := key, None;
      case Found => err := None;
      case Refused(key) => topic.id, err := key, Some(Rejected);
    }
  }

  /** What stops the loop at a record: its stored request is unusable, or the creation fails. */
  function TurnError(r: CreateRequest, was: Classifier, to: string, creation: Creation,
                     find: string -> Result<Option<Domain>, Error>): Option<Error>
  {
    if !Copyable(r) then Some(BadRequest)
    else CreationError(CopyName(r.template, was.(namespace := to), find), creation)
  }

  /** A record after its turn: moved to the new namespace, named as resolved there. */
  ghost predicate Moved(topic: TopicRegistration, was: Classifier, to: string, creation: Creation,
                        find: string -> Result<Option<Domain>, Error>)
    reads topic
  {
    && Copyable(topic.createReq)
    && var name := CopyName(topic.createReq.template, was.(namespace := to), find);
       && topic.classifier == was.(namespace := to) && topic.namespace == to
       && topic.topic == (if name.Success? then name.value else "")
       && topic.id == NewId(name, creation)
  }

  /** A record whose turn went well. */
  ghost predicate Copied(topic: TopicRegistration, was: Classifier, to: string, creation: Creation,
                         find: string -> Result<Option<Domain>, Error>)
    reads topic
  {
    Moved(topic, was, to, creation, find) && TurnError(topic.createReq, was, to, creation, find).None?
  }

  /** One turn of the loop. */
  method CopyOne(topic: TopicRegistration, to: string, creation: Creation,
                 find: string -> Result<Option<Domain>, Error>)
    returns (err: Option<Error>)
    modifies topic
    ensures err == TurnError(topic.createReq, old(topic.classifier), to, creation, find)
    ensures if Copyable(topic.createReq) then Moved(topic, old(topic.classifier), to, creation, find)
            else unchanged(topic)
    ensures var r := topic.createReq;
            if r.Named? && (r.template == "" || Contains(r.template, "{{namespace}}")
                            || Contains(r.template, "%namespace%"))
            then topic.namespace == to && topic.classifier == old(topic.classifier).(namespace := to)
            else unchanged(topic) && err == Some(BadRequest)
  {
    if !topic.createReq.Named? {
      return Some(BadRequest);
    }
    var template := topic.createReq.template;
    if template != "" && !Contains(template, NAMESPACE_BRACES) && !Contains(template, NAMESPACE_PERCENT) {
      return Some(BadRequest);
    }
    topic.id := 0;
    topic.namespace := to;
    topic.classifier := topic.classifier.(namespace := to);
    topic.topic := template;
    err := Create(topic, creation, find);
  }

  /**
   copyVersionedTopics: each record is moved to the other namespace and created there under the name its
   stored template resolves to. The loop stops at the first record whose stored request is unusable, which
   stays as it was, or whose creation fails; the records after it are untouched.
   */
  method CopyVersionedTopics(topics: array<TopicRegistration>, to: string, creations: seq<Creation>,
                             find: string -> Result<Option<Domain>, Error>)
    returns (done: nat, err: Option<Error>)
    requires |creations| == topics.Length
    requires forall i, j :: 0 <= i < j < topics.Length ==> topics[i] != topics[j]
    modifies set i | 0 <= i < topics.Length :: topics[i]
    ensures done <= topics.Length
    ensures forall i :: 0 <= i < done ==>
              Copied(topics[i], old(topics[i].classifier), to, creations[i], find)
    ensures forall i :: 0 <= i < done ==>
              && topics[i].createReq.Named? && topics[i].namespace == to
              && topics[i].classifier == old(topics[i].classifier).(namespace := to)
              && ResolveTopicName(topics[i].createReq.template, topics[i].classifier, true, find)
                 == Success(topics[i].topic)
              && !creations[i].Refused?
              && topics[i].id == (if creations[i].Inserted? then creations[i].key else 0)
    ensures err.None? <==> done == topics.Length
    ensures done < topics.Length ==>
              && err == TurnError(topics[done].createReq, old(topics[done].classifier), to, creations[done], find)
              && (if Copyable(topics[done].createReq)
                  then Moved(topics[done], old(topics[done].classifier), to, creations[done], find)
                  else unchanged(topics[done]))
    ensures forall i :: done < i < topics.Length ==> unchanged(topics[i])
  {
    done, err := 0, None;
    while done < topics.Length
      invariant done <= topics.Length && err.None?
      invariant forall i :: 0 <= i < done ==>
                  Copied(topics[i], old(topics[i].classifier), to, creations[i], find)
      invariant forall i :: done <= i < topics.Length ==> unchanged(topics[i])
    {
      var topic := topics[done];
      assert forall i :: 0 <= i < topics.Length && i != done ==> topics[i] != topic;
      ghost var was := topic.classifier;
      err := CopyOne(topic, to, creations[done], find);
      if err.Some? {
        return;
      }
      assert Copied(topic, was, to, creations[done], find);
      done := done + 1;
    }
  }

  /** A copied record never carries the Kafka name its source had. */
  lemma MovedIsRenamed(topic: TopicRegistration, was: Classifier, to: string, creation: Creation,
                       find: string -> Result<Option<Domain>, Error>)
    requires Moved(topic, was, to, creation, find) && to != was.namespace
    requires var t := topic.createReq.template; t == "" || Contains(t, NAMESPACE_BRACES) || NoOverlap(t)
    requires CopyName(topic.createReq.template, was.(namespace := to), find).Success?
    ensures CopyName(topic.createReq.template, was, find) != Success(topic.topic)
  {
    CopyNeverCollides(topic.createReq.template, was, to, find);
  }
}
