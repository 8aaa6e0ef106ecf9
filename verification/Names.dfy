/** Names of nodes and keys of the store, as they are formatted. */
module Names {

  function Digit(d: nat): (c: char)
    requires d < 10
    ensures '0' <= c <= '9'
  {
    '0' + d as char
  }

  /** The `%d` verb for a natural number. */
  function Decimal(n: nat): (s: string)
    ensures |s| > 0
  {
    if n < 10 then [Digit(n)] else Decimal(n / 10) + [Digit(n % 10)]
  }

  function NodeName(k: nat): string {
    "node-" + Decimal(k)
  }

  /** The primary that is created for a cluster without nodes. */
  function FirstNodeName(cluster: string): string {
    cluster + "-" + "node-0"
  }

  function StorageKey(kind: string, name: string): string {
    "/" + kind + "/" + name
  }

  // ---- Reading a formatted number back ----

  predicate IsDigit(c: char) {
    '0' <= c <= '9'
  }

  predicate AllDigits(s: string) {
    forall i | 0 <= i < |s| :: IsDigit(s[i])
  }

  function ReadDecimal(s: string): nat
    requires AllDigits(s)
  {
    if s == "" then 0 else 10 * ReadDecimal(s[..|s| - 1]) + (s[|s| - 1] as int - '0' as int)
  }

  /** The formatted number reads back as the number, and has no leading zero. */
  lemma {:induction false} DecimalReadsBack(n: nat)
    ensures AllDigits(Decimal(n)) && ReadDecimal(Decimal(n)) == n
    ensures n > 0 ==> Decimal(n)[0] != '0'
  {
    var s := Decimal(n);
    if n >= 10 {
      DecimalReadsBack(n / 10);
      assert s[..|s| - 1] == Decimal(n / 10);
    } else {
      assert s[..0] == "" && ReadDecimal("") == 0;
    }
  }

  /** The second node is called "node-2", the tenth "node-10". */
  lemma NodeNameReadsBack(k: nat)
    ensures "node-" <= NodeName(k) && AllDigits(NodeName(k)[5..]) && ReadDecimal(NodeName(k)[5..]) == k
    ensures NodeName(2) == "node-2" && NodeName(10) == "node-10"
  {
    DecimalReadsBack(k);
    assert NodeName(k)[5..] == Decimal(k);
    assert Decimal(10) == Decimal(1) + [Digit(0)];
  }

  /** The other formats, written out. */
  lemma FormatsReadBack(cluster: string, kind: string, name: string)
    ensures FirstNodeName(cluster) == cluster + "-node-0"
    ensures |StorageKey(kind, name)| == |kind| + |name| + 2
    ensures StorageKey(kind, name)[0] == '/' == StorageKey(kind, name)[|kind| + 1]
    ensures StorageKey(kind, name)[1..|kind| + 1] == kind && StorageKey(kind, name)[|kind| + 2..] == name
  {
  }

  lemma {:induction false} DecimalInjective(a: nat, b: nat)
    requires Decimal(a) == Decimal(b)
    ensures a == b
  {
    var s, t := Decimal(a), Decimal(b);
    assert s[|s| - 1] == Digit(a % 10) && t[|t| - 1] == Digit(b % 10);
    if a >= 10 && b >= 10 {
      assert Decimal(a / 10) == s[..|s| - 1] && Decimal(b / 10) == t[..|t| - 1];
      DecimalInjective(a / 10, b / 10);
    }
  }

  lemma {:induction false} DecimalHasNoDash(n: nat)
    ensures '-' !in Decimal(n)
  {
    if n >= 10 {
      DecimalHasNoDash(n / 10);
    }
  }

  lemma NodeNameInjective(a: nat, b: nat)
    requires NodeName(a) == NodeName(b)
    ensures a == b
  {
    assert Decimal(a) == NodeName(a)[5..] && Decimal(b) == NodeName(b)[5..];
    DecimalInjective(a, b);
  }

  lemma NodeNamesDiffer(a: nat, b: nat)
    requires a != b
    ensures NodeName(a) != NodeName(b)
  {
    if NodeName(a) == NodeName(b) {
      NodeNameInjective(a, b);
    }
  }

  lemma FirstNodeNameInjective(c: string, d: string)
    requires FirstNodeName(c) == FirstNodeName(d)
    ensures c == d
  {
    assert c == FirstNodeName(c)[..|c|] && d == FirstNodeName(d)[..|d|];
  }

  /** Whatever the cluster is called, its first primary never collides with a numbered node. */
  lemma FirstIsNotNumbered(cluster: string, k: nat)
    ensures FirstNodeName(cluster) != NodeName(k)
  {
    DecimalHasNoDash(k);
    var first, numbered, dash := FirstNodeName(cluster), NodeName(k), |cluster| + 5;
    assert first[dash] == '-';
    if dash < |numbered| {
      assert numbered[dash] == Decimal(k)[dash - 5] != '-';
    }
  }

  /** The keys of the two kinds can be the same: the longer one goes on behind a slash where the shorter one ends. */
  predicate Overlap(kind: string, kind': string) {
    kind + "/" <= kind' || kind' + "/" <= kind
  }

  /** Where two different kinds lead to the same key, one of them goes on behind a slash. */
  lemma SameKeyMeansOverlap(kind: string, name: string, kind': string, name': string)
    requires StorageKey(kind, name) == StorageKey(kind', name') && |kind| < |kind'|
    ensures kind + "/" <= kind'
  {
    var s, t := StorageKey(kind, name), StorageKey(kind', name');
    assert s[|kind| + 1] == '/' && t[|kind| + 1] == kind'[|kind|];
    assert kind == s[1..|kind| + 1] == t[1..|kind| + 1] == kind'[..|kind|];
  }

  /** With kinds that do not overlap, two resources share a key exactly when they are the same resource. */
  lemma SeparateKeysInjective(kind: string, name: string, kind': string, name': string)
    requires !Overlap(kind, kind')
    ensures StorageKey(kind, name) == StorageKey(kind', name') <==> kind == kind' && name == name'
  {
    var s, t := StorageKey(kind, name), StorageKey(kind', name');
    if s == t {
      if |kind| < |kind'| {
        SameKeyMeansOverlap(kind, name, kind', name');
      } else if |kind'| < |kind| {
        SameKeyMeansOverlap(kind', name', kind, name);
      } else {
        assert kind == s[1..|kind| + 1] == t[1..|kind| + 1] == kind';
        assert name == s[|kind| + 2..] == t[|kind| + 2..] == name';
      }
    }
  }

  /** With slash-free kinds, two resources share a key exactly when they are the same resource. */
  lemma StorageKeyInjective(kind: string, name: string, kind': string, name': string)
    requires '/' !in kind && '/' !in kind'
    ensures StorageKey(kind, name) == StorageKey(kind', name') <==> kind == kind' && name == name'
  {
    SlashFreeIsSeparate(kind, kind');
    SlashFreeIsSeparate(kind', kind);
    SeparateKeysInjective(kind, name, kind', name');
  }

  lemma SlashFreeIsSeparate(kind: string, kind': string)
    requires '/' !in kind'
    ensures !(kind + "/" <= kind')
  {
    assert (kind + "/")[|kind|] == '/';
  }

  /** The resource of the shorter kind that a resource `name` of the longer kind is taken for. */
  function Double(kind: string, kind': string, name: string): string
    requires kind + "/" <= kind'
  {
    kind'[|kind| + 1..] + "/" + name
  }

  lemma DoubleHasSameKey(kind: string, kind': string, name: string)
    requires kind + "/" <= kind'
    ensures StorageKey(kind, Double(kind, kind', name)) == StorageKey(kind', name)
  {
    assert kind' == kind + "/" + kind'[|kind| + 1..];
  }

  /** Two different kinds have a key in common exactly if they overlap. */
  lemma KindsCollideIff(kind: string, kind': string)
    requires kind != kind'
    ensures (exists name, name' :: StorageKey(kind, name) == StorageKey(kind', name')) <==> Overlap(kind, kind')
  {
    if kind + "/" <= kind' {
      DoubleHasSameKey(kind, kind', "");
    } else if kind' + "/" <= kind {
      DoubleHasSameKey(kind', kind, "");
    } else if name, name' :| StorageKey(kind, name) == StorageKey(kind', name') {
      SeparateKeysInjective(kind, name, kind', name');
    }
  }

  /** The names `node-1` to `node-n`. */
  ghost function Numbered(n: nat): set<string> {
    if n == 0 then {} else Numbered(n - 1) + {NodeName(n)}
  }

  lemma {:induction false} NumberedMembers(n: nat, k: nat)
    ensures NodeName(k) in Numbered(n) <==> 1 <= k <= n
  {
    if n > 0 {
      NumberedMembers(n - 1, k);
      if k != n {
        NodeNamesDiffer(k, n);
      }
    }
  }

  lemma {:induction false} NumberedSize(n: nat)
    ensures |Numbered(n)| == n
  {
    if n > 0 {
      NumberedSize(n - 1);
      NumberedMembers(n - 1, n);
    }
  }
}
