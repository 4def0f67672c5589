/** Prompt normalisation and the keys of the response cache, on ASCII text. */
module SemanticCache {
  import opened AsciiText

  // `\w`
  predicate IsWordChar(c: char) {
    'a' <= c <= 'z' || 'A' <= c <= 'Z' || '0' <= c <= '9' || c == '_'
  }

  predicate IsPunctuation(c: char) { !IsWordChar(c) }

  // ----- Normalisation -----

  // `re.sub(r"\s+", " ", s)`
  function Collapse(s: string): string {
    if s == "" then ""
    else if !IsSpace(s[0]) then [s[0]] + Collapse(s[1..])
    else if |s| > 1 && IsSpace(s[1]) then Collapse(s[1..])
    else " " + Collapse(s[1..])
  }

  function Core(prompt: string): string { Trim(Lower(prompt), IsPunctuation) }

  // `normalize_prompt`
  function NormalizePrompt(prompt: string): string {
    if prompt == "" then "" else Trim(Collapse(Core(prompt)), IsSpace)
  }

  // ----- What normalisation identifies -----

  function Spread(words: seq<string>): string {
    if words == [] then "" else Join(words, ' ')
  }

  predicate Framed(s: string) {
    s == "" || (IsWordChar(s[0]) && IsWordChar(s[|s| - 1]))
  }

  lemma CoreIsFramed(prompt: string)
    ensures Framed(Core(prompt))
  {
    var t := TrimLeft(Lower(prompt), IsPunctuation);
    var r := TrimRight(t, IsPunctuation);
    TrimLeftExact(Lower(prompt), IsPunctuation);
    TrimRightExact(t, IsPunctuation);
    assert r != "" ==> r[0] == t[0];
  }

  lemma {:induction false} CollapseWord(s: string, n: nat)
    requires n <= |s| && forall i | 0 <= i < n :: !IsSpace(s[i])
    ensures Collapse(s) == s[..n] + Collapse(s[n..])
    decreases n
  {
    if n > 0 {
      CollapseWord(s[1..], n - 1);
      assert s[1..][n - 1..] == s[n..] && s[..n] == [s[0]] + s[1..][..n - 1];
    }
  }

  lemma {:induction false} CollapseSpaces(s: string)
    requires s != "" && IsSpace(s[0])
    ensures Collapse(s) == " " + Collapse(TrimLeft(s, IsSpace))
    ensures Words(s) == Words(TrimLeft(s, IsSpace))
    decreases |s|
  {
    if |s| > 1 && IsSpace(s[1]) {
      CollapseSpaces(s[1..]);
    }
  }

  lemma SpreadCons(w: string, ws: seq<string>)
    ensures Spread([w] + ws) == if ws == [] then w else w + (" " + Spread(ws))
  {
    assert ([w] + ws)[1..] == ws;
    assert w + " " + Spread(ws) == w + (" " + Spread(ws));
  }

  // The first word of a text that starts with one, and the text after the blanks behind it.
  lemma FirstWord(s: string, n: nat)
    requires s != "" && !IsSpace(s[0]) && n == WordLength(s)
    ensures n > 0 && Words(s) == [s[..n]] + Words(s[n..])
    ensures Collapse(s) == s[..n] + Collapse(s[n..])
  {
    CollapseWord(s, n);
  }

  // The text after the first word and the blanks behind it.
  function AfterWord(s: string): string { TrimLeft(s[WordLength(s)..], IsSpace) }

  // What follows a first word: nothing, or blanks and more words.
  lemma RestIsFramed(s: string, u: string)
    requires s != "" && !IsSpace(s[0]) && !IsSpace(s[|s| - 1]) && u == s[WordLength(s)..]
    ensures |u| < |s| && (u == "" || (IsSpace(u[0]) && !IsSpace(u[|u| - 1])))
  {
    if u != "" {
      assert u[|u| - 1] == s[|s| - 1];
    }
  }

  lemma RestCollapses(u: string)
    requires u == "" || (IsSpace(u[0]) && !IsSpace(u[|u| - 1]))
    ensures var v := TrimLeft(u, IsSpace);
            && |v| <= |u| && Words(u) == Words(v)
            && (v != "" ==> !IsSpace(v[0]) && !IsSpace(v[|v| - 1]))
            && Collapse(u) == if v == "" then "" else " " + Collapse(v)
  {
    TrimLeftExact(u, IsSpace);
    if u != "" { CollapseRest(u); }
  }

  lemma WordAndRest(s: string)
    requires s != "" && !IsSpace(s[0]) && !IsSpace(s[|s| - 1])
    ensures var w, v := s[..WordLength(s)], AfterWord(s);
            && |v| < |s| && Words(s) == [w] + Words(v)
            && (v != "" ==> !IsSpace(v[0]) && !IsSpace(v[|v| - 1]))
            && Collapse(s) == if v == "" then w else w + (" " + Collapse(v))
  {
    var n := WordLength(s);
    var u := s[n..];
    FirstWord(s, n);
    RestIsFramed(s, u);
    RestCollapses(u);
  }

  /** Collapsing writes the words of a framed text with single spaces between them. */
  lemma {:induction false} CollapseIsWords(s: string)
    requires s == "" || (!IsSpace(s[0]) && !IsSpace(s[|s| - 1]))
    ensures Collapse(s) == Spread(Words(s))
    ensures s != "" ==> Words(s) != []
    decreases |s|
  {
    if s != "" {
      WordAndRest(s);
      var v := AfterWord(s);
      CollapseIsWords(v);
      SpreadCons(s[..WordLength(s)], Words(v));
    }
  }

  lemma CollapseRest(u: string)
    requires u != "" && IsSpace(u[0]) && !IsSpace(u[|u| - 1])
    ensures var v := TrimLeft(u, IsSpace);
            && v != "" && !IsSpace(v[0]) && !IsSpace(v[|v| - 1])
            && Collapse(u) == " " + Collapse(v) && Words(u) == Words(v)
  {
    CollapseSpaces(u);
    TrimLeftExact(u, IsSpace);
  }

  lemma {:induction false} WordsAreWords(s: string)
    ensures forall i | 0 <= i < |Words(s)| :: IsWord(Words(s)[i])
    decreases |s|
  {
    if s != "" {
      if IsSpace(s[0]) {
        WordsAreWords(s[1..]);
      } else {
        WordsAreWords(s[WordLength(s)..]);
      }
    }
  }

  lemma TrimKeeps(s: string, junk: char -> bool)
    requires s == "" || (!junk(s[0]) && !junk(s[|s| - 1]))
    ensures Trim(s, junk) == s
  {
  }

  lemma {:induction false} CollapseEnds(s: string)
    requires s != "" && !IsSpace(s[|s| - 1])
    ensures Collapse(s) != ""
    ensures Collapse(s)[|Collapse(s)| - 1] == s[|s| - 1]
    ensures !IsSpace(s[0]) ==> Collapse(s)[0] == s[0]
    decreases |s|
  {
    if |s| > 1 {
      CollapseEnds(s[1..]);
    }
  }

  lemma {:induction false} CollapseChars(s: string)
    ensures forall c | c in Collapse(s) :: c == ' ' || c in s
    decreases |s|
  {
    if s != "" {
      CollapseChars(s[1..]);
      assert forall c | c in s[1..] :: c in s;
    }
  }

  /** The normal form is the words of the stripped, lower-cased prompt, single-spaced. */
  lemma NormalFormIsWords(prompt: string)
    ensures NormalizePrompt(prompt) == Spread(Words(Core(prompt)))
  {
    var core := Core(prompt);
    CoreIsFramed(prompt);
    CollapseIsWords(core);
    if core != "" {
      CollapseEnds(core);
    }
    TrimKeeps(Collapse(core), IsSpace);
  }

  /** Two prompts share a normal form exactly when, lower-cased and stripped of the punctuation and
      blanks around them, they are the same words. */
  lemma SameNormalForm(p: string, q: string)
    ensures NormalizePrompt(p) == NormalizePrompt(q) <==> Words(Core(p)) == Words(Core(q))
  {
    NormalFormIsWords(p);
    NormalFormIsWords(q);
    var v, w := Words(Core(p)), Words(Core(q));
    WordsAreWords(Core(p));
    WordsAreWords(Core(q));
    if v != [] { WordsOfJoin(v); }
    if w != [] { WordsOfJoin(w); }
  }

  // A normal form is its own core.
  lemma CoreOfNormalForm(p: string)
    ensures Core(NormalizePrompt(p)) == NormalizePrompt(p)
  {
    var core := Core(p);
    CoreIsFramed(p);
    if core == "" {
      TrimKeeps(core, IsSpace);
    } else {
      CollapseEnds(core);
      var n := Collapse(core);
      TrimKeeps(n, IsSpace);
      CollapseChars(core);
      LowerIsFixed(core, p);
      assert forall i | 0 <= i < |n| :: n[i] in Collapse(core);
      assert Lower(n) == n;
      TrimKeeps(n, IsPunctuation);
    }
  }

  /** Normalising twice changes nothing. */
  lemma NormalizeIsIdempotent(p: string)
    ensures NormalizePrompt(NormalizePrompt(p)) == NormalizePrompt(p)
  {
    var words := Words(Core(p));
    CoreOfNormalForm(p);
    NormalFormIsWords(p);
    NormalFormIsWords(NormalizePrompt(p));
    WordsAreWords(Core(p));
    if words != [] { WordsOfJoin(words); }
  }

  predicate Lowered(c: char) { LowerChar(c) == c }

  lemma LowerIsFixed(core: string, p: string)
    requires core == Core(p)
    ensures forall c | c in core :: Lowered(c)
  {
    TrimChars(Lower(p), IsPunctuation);
    LowerIsLowered(p);
  }

  lemma LowerIsLowered(p: string)
    ensures forall c | c in Lower(p) :: Lowered(c)
  {
  }

  // ----- Cache keys -----

  const NAMESPACE: string := "llm_cache:v1"

  // `(name or default).lower().strip()`
  function Clean(name: string, default: string): string {
    Trim(Lower(if name == "" then default else name), IsSpace)
  }

  function Key(provider: string, role: string, model: string, digest: string): string {
    NAMESPACE + ([':'] + (provider + [':'] + (role + [':'] + (model + [':'] + digest))))
  }

  // `generate_cache_key`, with the digest of the normal form as a parameter.
  function GenerateCacheKey(prompt: string, model: string, role: string, provider: string,
      digest: string -> string): string {
    Key(Clean(provider, "default"), Clean(role, "unknown"), Clean(model, "default"), digest(NormalizePrompt(prompt)))
  }

  // `long` is `short`, a colon, and more text or none.
  predicate Extends(long: string, short: string) {
    |short| < |long| && long[..|short|] == short && long[|short|] == ':'
  }

  function Extension(long: string, short: string): string
    requires Extends(long, short)
  {
    long[|short| + 1..]
  }

  // Two different texts before a colon: the longer one reaches beyond the other's colon.
  lemma HeadSplits(a: string, x: string, b: string, y: string)
    requires a + [':'] + x == b + [':'] + y
    ensures (a == b && x == y) || Extends(a, b) || Extends(b, a)
    ensures Extends(a, b) ==> y == Extension(a, b) + [':'] + x
  {
    var s := a + [':'] + x;
    assert s[..|a|] == a && s[..|b|] == b && s[|a|] == ':' && s[|b|] == ':';
    assert s[|a| + 1..] == x && s[|b| + 1..] == y;
  }

  lemma TailSplits(a: string, x: string, b: string, y: string)
    requires |x| == |y| && a + [':'] + x == b + [':'] + y
    ensures a == b && x == y
  {
    var s, t := a + [':'] + x, b + [':'] + y;
    assert |a| == |b|;
    assert s[..|a|] == a && t[..|b|] == b;
    assert s[|a| + 1..] == x && t[|b| + 1..] == y;
  }

  // What `strip` leaves.
  predicate Stripped(s: string) {
    s == "" || (!IsSpace(s[0]) && !IsSpace(s[|s| - 1]))
  }

  // One role is the other, a colon, and text that a stripped model name can begin with.
  predicate Joins(long: string, short: string) {
    Extends(long, short) && (Extension(long, short) == "" || !IsSpace(Extension(long, short)[0]))
  }

  // The two key tails after the provider.
  lemma RolesSplit(r1: string, m1: string, d1: string, r2: string, m2: string, d2: string)
    requires r1 + [':'] + (m1 + [':'] + d1) == r2 + [':'] + (m2 + [':'] + d2)
    requires |d1| == |d2| && Stripped(m2) && Extends(r1, r2)
    ensures Joins(r1, r2) && m2 == Extension(r1, r2) + [':'] + m1 && d1 == d2
  {
    HeadSplits(r1, m1 + [':'] + d1, r2, m2 + [':'] + d2);
    var t := Extension(r1, r2);
    assert t + [':'] + (m1 + [':'] + d1) == (t + [':'] + m1) + [':'] + d1;
    TailSplits(t + [':'] + m1, d1, m2, d2);
  }

  lemma NamespaceDrops(y1: string, y2: string)
    requires NAMESPACE + ([':'] + y1) == NAMESPACE + ([':'] + y2)
    ensures y1 == y2
  {
    var n := |NAMESPACE|;
    assert (NAMESPACE + ([':'] + y1))[n + 1..] == y1 && (NAMESPACE + ([':'] + y2))[n + 1..] == y2;
  }

  /** Keys are equal exactly when provider, role, model and digest are, as long as no provider extends
      the other by a colon and no role joins the other; a model may contain any colon. */
  lemma KeysAgreeExactly(p1: string, r1: string, m1: string, d1: string, p2: string, r2: string, m2: string, d2: string)
    requires !Extends(p1, p2) && !Extends(p2, p1) && !Joins(r1, r2) && !Joins(r2, r1)
    requires |d1| == |d2| && Stripped(m1) && Stripped(m2)
    ensures Key(p1, r1, m1, d1) == Key(p2, r2, m2, d2) <==> p1 == p2 && r1 == r2 && m1 == m2 && d1 == d2
  {
    if Key(p1, r1, m1, d1) == Key(p2, r2, m2, d2) {
      var x1, x2 := r1 + [':'] + (m1 + [':'] + d1), r2 + [':'] + (m2 + [':'] + d2);
      NamespaceDrops(p1 + [':'] + x1, p2 + [':'] + x2);
      HeadSplits(p1, x1, p2, x2);
      HeadSplits(r1, m1 + [':'] + d1, r2, m2 + [':'] + d2);
      if Extends(r1, r2) { RolesSplit(r1, m1, d1, r2, m2, d2); }
      if Extends(r2, r1) { RolesSplit(r2, m2, d2, r1, m1, d1); }
      TailSplits(m1, d1, m2, d2);
    }
  }

  // Role r asking model x:m and role r:x asking model m have the same key.
  lemma ColonJoinsRoles(provider: string, r: string, x: string, m: string, digest: string)
    ensures Key(provider, r, x + [':'] + m, digest) == Key(provider, r + [':'] + x, m, digest)
  {
    assert r + [':'] + ((x + [':'] + m) + [':'] + digest) == (r + [':'] + x) + [':'] + (m + [':'] + digest);
  }

  lemma CleanIsStripped(name: string, default: string)
    ensures Stripped(Clean(name, default)) && forall c | c in Clean(name, default) :: Lowered(c)
  {
    var s := if name == "" then default else name;
    var t := TrimLeft(Lower(s), IsSpace);
    TrimLeftExact(Lower(s), IsSpace);
    TrimRightExact(t, IsSpace);
    TrimChars(Lower(s), IsSpace);
    LowerIsLowered(s);
    var r := TrimRight(t, IsSpace);
    assert r != "" ==> r[0] == t[0];
  }

  lemma CleanKeeps(s: string, default: string)
    requires s != "" && Stripped(s) && forall c | c in s :: Lowered(c)
    ensures Clean(s, default) == s
  {
    assert forall i | 0 <= i < |s| :: s[i] in s;
    assert Lower(s) == s;
    TrimKeeps(s, IsSpace);
  }

  // Some two models give the two roles one key.
  ghost predicate RolesCollide(prompt: string, role1: string, role2: string, provider: string,
      digest: string -> string) {
    exists m1, m2 :: SameKeys(prompt, m1, role1, m2, role2, provider, digest)
  }

  predicate SameKeys(prompt: string, m1: string, role1: string, m2: string, role2: string, provider: string,
                     digest: string -> string) {
    && m1 != "" && m2 != ""
    && GenerateCacheKey(prompt, m1, role1, provider, digest) == GenerateCacheKey(prompt, m2, role2, provider, digest)
  }

  // The model with which the shorter role meets the longer one asking model "m".
  lemma JoiningModel(r1: string, r2: string, m: string)
    requires Joins(r1, r2) && m == Extension(r1, r2) + [':'] + "m" && forall c | c in r1 :: Lowered(c)
    ensures Clean(m, "default") == m
  {
    var t := Extension(r1, r2);
    assert forall i | 0 <= i < |t| :: t[i] == r1[|r2| + 1 + i];
    assert forall c | c in m :: c in r1 || c == ':' || c == 'm';
    CleanKeeps(m, "default");
  }

  lemma JoinedKeysAgree(p: string, r1: string, r2: string, m: string, d: string)
    requires Joins(r1, r2) && m == Extension(r1, r2) + [':'] + "m"
    ensures Key(p, r1, "m", d) == Key(p, r2, m, d)
  {
    assert r1 == r2 + [':'] + Extension(r1, r2);
    ColonJoinsRoles(p, r2, Extension(r1, r2), "m", d);
  }

  lemma JoinedRolesMeet(prompt: string, role1: string, role2: string, provider: string, digest: string -> string)
    returns (m: string)
    requires Joins(Clean(role1, "unknown"), Clean(role2, "unknown"))
    ensures m != ""
    ensures GenerateCacheKey(prompt, "m", role1, provider, digest)
            == GenerateCacheKey(prompt, m, role2, provider, digest)
  {
    var r1, r2 := Clean(role1, "unknown"), Clean(role2, "unknown");
    m := Extension(r1, r2) + [':'] + "m";
    CleanIsStripped(role1, "unknown");
    CleanKeeps("m", "default");
    JoiningModel(r1, r2, m);
    JoinedKeysAgree(Clean(provider, "default"), r1, r2, m, digest(NormalizePrompt(prompt)));
  }

  lemma JoinedRolesCollide(prompt: string, role1: string, role2: string, provider: string, digest: string -> string)
    requires Joins(Clean(role1, "unknown"), Clean(role2, "unknown"))
    ensures RolesCollide(prompt, role1, role2, provider, digest)
    ensures RolesCollide(prompt, role2, role1, provider, digest)
  {
    var m := JoinedRolesMeet(prompt, role1, role2, provider, digest);
    assert SameKeys(prompt, "m", role1, m, role2, provider, digest);
    assert SameKeys(prompt, m, role2, "m", role1, provider, digest);
  }

  // Whatever collides, joins.
  lemma CollidingRolesJoin(prompt: string, m1: string, role1: string, m2: string, role2: string, provider: string,
                           digest: string -> string)
    requires Clean(role1, "unknown") != Clean(role2, "unknown")
    requires SameKeys(prompt, m1, role1, m2, role2, provider, digest)
    ensures || Joins(Clean(role1, "unknown"), Clean(role2, "unknown"))
            || Joins(Clean(role2, "unknown"), Clean(role1, "unknown"))
  {
    var p, d := Clean(provider, "default"), digest(NormalizePrompt(prompt));
    var r1, r2, n1, n2 := Clean(role1, "unknown"), Clean(role2, "unknown"), Clean(m1, "default"), Clean(m2, "default");
    CleanIsStripped(m1, "default");
    CleanIsStripped(m2, "default");
    if !Joins(r1, r2) && !Joins(r2, r1) {
      KeysAgreeExactly(p, r1, n1, d, p, r2, n2, d);
    }
  }

  /** Two different roles can share an entry, for some pair of models, if and only if one role is the
      other followed by a colon and text that a model name can begin with. So "a:b" and "c" never do,
      and "a" and "a:b" do. */
  lemma RolesCollideExactly(prompt: string, role1: string, role2: string, provider: string, digest: string -> string)
    requires Clean(role1, "unknown") != Clean(role2, "unknown")
    ensures RolesCollide(prompt, role1, role2, provider, digest)
            <==> || Joins(Clean(role1, "unknown"), Clean(role2, "unknown"))
                 || Joins(Clean(role2, "unknown"), Clean(role1, "unknown"))
  {
    if Joins(Clean(role1, "unknown"), Clean(role2, "unknown")) {
      JoinedRolesCollide(prompt, role1, role2, provider, digest);
    } else if Joins(Clean(role2, "unknown"), Clean(role1, "unknown")) {
      JoinedRolesCollide(prompt, role2, role1, provider, digest);
    } else if RolesCollide(prompt, role1, role2, provider, digest) {
      var m1, m2 :| SameKeys(prompt, m1, role1, m2, role2, provider, digest);
      CollidingRolesJoin(prompt, m1, role1, m2, role2, provider, digest);
    }
  }

  // ----- The parts spelt out -----

  // A letter, digit or underscore, the letters in lower case.
  predicate IsInner(c: char) { 'a' <= c <= 'z' || '0' <= c <= '9' || c == '_' }

  /** What is kept of a prompt: the lower-cased prompt from its first to its last letter, digit or
      underscore, and nothing when it has none. */
  lemma CoreExactly(prompt: string) returns (from: nat, to: nat)
    ensures from <= to <= |prompt| && Core(prompt) == Lower(prompt)[from..to]
    ensures forall i | 0 <= i < |prompt| && (i < from || to <= i) :: !IsInner(Lower(prompt)[i])
    ensures from < to ==> IsInner(Lower(prompt)[from]) && IsInner(Lower(prompt)[to - 1])
  {
    var s := Lower(prompt);
    var t := TrimLeft(s, IsPunctuation);
    TrimLeftExact(s, IsPunctuation);
    TrimRightExact(t, IsPunctuation);
    from := |s| - |t|;
    to := from + |TrimRight(t, IsPunctuation)|;
    forall i | 0 <= i < |s|
      ensures IsInner(s[i]) <==> !IsPunctuation(s[i])
    {
      assert s[i] == LowerChar(prompt[i]);
    }
    assert forall i | from <= i < |s| :: t[i - from] == s[i];
  }

  lemma KeyTextOf(p: string, r: string, m: string, d: string)
    ensures Key(p, r, m, d) == "llm_cache:v1:" + p + ":" + r + ":" + m + ":" + d
  {
    assert "llm_cache:v1:" == NAMESPACE + [':'];
    assert Key(p, r, m, d) == NAMESPACE + [':'] + p + [':'] + r + [':'] + m + [':'] + d;
  }

  /** The text of a key: provider, role, model and digest after the namespace, each lower-cased and
      stripped, with its default when it is empty. */
  lemma KeyText(prompt: string, model: string, role: string, provider: string, digest: string -> string)
    ensures var p := Trim(Lower(if provider == "" then "default" else provider), IsSpace);
            var r := Trim(Lower(if role == "" then "unknown" else role), IsSpace);
            var m := Trim(Lower(if model == "" then "default" else model), IsSpace);
            GenerateCacheKey(prompt, model, role, provider, digest)
            == "llm_cache:v1:" + p + ":" + r + ":" + m + ":" + digest(NormalizePrompt(prompt))
  {
    KeyTextOf(Clean(provider, "default"), Clean(role, "unknown"), Clean(model, "default"),
              digest(NormalizePrompt(prompt)));
  }
}
