/** The Galera configuration file that an agent renders from its target state. */
module Rendering {
  import opened Entities

  // ---- strings.ReplaceAll and strings.Join ----

  function ReplaceAll(s: string, pattern: string, value: string): string
    requires pattern != ""
    decreases |s|
  {
    if pattern <= s then value + ReplaceAll(s[|pattern|..], pattern, value)
    else if s == "" then ""
    else [s[0]] + ReplaceAll(s[1..], pattern, value)
  }

  function Join(items: seq<string>): string {
    if items == [] then "" else if |items| == 1 then items[0] else items[0] + "," + Join(items[1..])
  }

  // ---- The template ----

  const HOSTNAMES := "<node_hostnames>"
  const NODE_NAME := "<node_name>"
  const HOSTNAME := "<node_hostname>"

  const PROVIDER_LINES := [
    "\n[mysqld]\n",
    "wsrep_on                 = 1\n",
    "wsrep_provider = /usr/lib/galera/",
    "libgalera_smm.so\n"
  ]

  const ENGINE_LINES := [
    "binlog_format            = row\n",
    "default_storage_engine   = InnoDB\n"
  ]

  const CLUSTER_LINES := [
    "innodb_autoinc_lock_mode = 2\n",
    "wsrep_cluster_address = \"gcomm://"
  ]

  const MIDDLE_LINES := [
    "\"\nwsrep_cluster_name    = ",
    "\"galera-cluster\"\n",
    "wsrep_node_name       = \""
  ]

  const NAME_LINES := ["\"\nwsrep_node_address    = \""]

  const TAIL_LINES := ["\"\n\nwsrep_sst_method=rsync\n", "wsrep_sst_auth=root:\n"]

  function Concat(lines: seq<string>): string {
    if lines == [] then "" else lines[0] + Concat(lines[1..])
  }

  // ---- Templates in general ----

  datatype Token = Text(text: string) | Hostnames | NodeName | Hostname

  /** Values for the placeholders; a placeholder without a value still stands for itself. */
  datatype Values = Values(hostnames: Option<string>, nodeName: Option<string>, hostname: Option<string>)

  function Or(value: Option<string>, default: string): string {
    if value.Some? then value.value else default
  }

  function ShowToken(t: Token, v: Values): string {
    match t
    case Text(text) => text
    case Hostnames => Or(v.hostnames, HOSTNAMES)
    case NodeName => Or(v.nodeName, NODE_NAME)
    case Hostname => Or(v.hostname, HOSTNAME)
  }

  /** One simultaneous substitution. */
  function Show(tokens: seq<Token>, v: Values): string {
    if tokens == [] then "" else ShowToken(tokens[0], v) + Show(tokens[1..], v)
  }

  predicate Free(s: string) {
    '<' !in s
  }

  /** The placeholder stands at the beginning of the text, or would if the right text followed. */
  predicate Begins(s: string, placeholder: string) {
    placeholder <= s || s <= placeholder
  }

  /** No placeholder begins inside the text, whatever follows it. */
  predicate Inert(s: string) {
    s == "" || (!Begins(s, HOSTNAMES) && !Begins(s, NODE_NAME) && !Begins(s, HOSTNAME) && Inert(s[1..]))
  }

  predicate IsPlaceholder(s: string) {
    s == HOSTNAMES || s == NODE_NAME || s == HOSTNAME
  }

  predicate InertValues(v: Values) {
    Inert(Or(v.hostnames, "")) && Inert(Or(v.nodeName, "")) && Inert(Or(v.hostname, ""))
  }

  predicate InertTexts(tokens: seq<Token>) {
    forall t | t in tokens && t.Text? :: Inert(t.text)
  }

  lemma NotPrefixOfMore(s: string, rest: string, placeholder: string)
    requires !Begins(s, placeholder)
    ensures !(placeholder <= s + rest) && !Begins(s + rest, placeholder)
  {
    if |placeholder| <= |s| {
      assert (s + rest)[..|placeholder|] == s[..|placeholder|];
    } else {
      assert (s + rest)[..|s|] == s;
    }
  }

  lemma {:induction false} FreeIsInert(s: string)
    requires Free(s)
    ensures Inert(s)
  {
    if s != "" {
      assert s[0] in s;
      FreeIsInert(s[1..]);
    }
  }

  lemma {:induction false} InertConcat(s: string, rest: string)
    requires Inert(s) && Inert(rest)
    ensures Inert(s + rest)
  {
    if s == "" {
      assert s + rest == rest;
    } else {
      assert (s + rest)[1..] == s[1..] + rest;
      InertConcat(s[1..], rest);
      NotPrefixOfMore(s, rest, HOSTNAMES);
      NotPrefixOfMore(s, rest, NODE_NAME);
      NotPrefixOfMore(s, rest, HOSTNAME);
    }
  }

  /** An inert text holds no placeholder. */
  lemma {:induction false} InertHasNone(s: string, i: nat, placeholder: string)
    requires Inert(s) && i <= |s| && IsPlaceholder(placeholder)
    ensures !(placeholder <= s[i..])
  {
    if i == |s| {
      assert |s[i..]| == 0;
    } else if i > 0 {
      InertHasNone(s[1..], i - 1, placeholder);
      assert s[1..][i - 1..] == s[i..];
    } else {
      assert s[0..] == s;
    }
  }

  lemma InertHead(s: string, placeholder: string)
    requires Inert(s) && s != "" && IsPlaceholder(placeholder)
    ensures !Begins(s, placeholder) && Inert(s[1..])
  {
  }

  lemma SkipOne(s: string, rest: string, pattern: string, value: string)
    requires s != "" && pattern != "" && !(pattern <= s + rest)
    ensures ReplaceAll(s + rest, pattern, value) == [s[0]] + ReplaceAll(s[1..] + rest, pattern, value)
  {
    assert (s + rest)[0] == s[0] && (s + rest)[1..] == s[1..] + rest;
  }

  lemma {:induction false} SkipInert(s: string, rest: string, pattern: string, value: string)
    requires Inert(s) && IsPlaceholder(pattern)
    ensures ReplaceAll(s + rest, pattern, value) == s + ReplaceAll(rest, pattern, value)
  {
    if s == "" {
      assert s + rest == rest;
    } else {
      InertHead(s, pattern);
      NotPrefixOfMore(s, rest, pattern);
      SkipOne(s, rest, pattern, value);
      SkipInert(s[1..], rest, pattern, value);
      Reassociate(s, ReplaceAll(rest, pattern, value));
    }
  }

  lemma TakeMatch(rest: string, pattern: string, value: string)
    requires pattern != ""
    ensures ReplaceAll(pattern + rest, pattern, value) == value + ReplaceAll(rest, pattern, value)
  {
    assert (pattern + rest)[|pattern|..] == rest;
  }

  /** Another placeholder that differs from the pattern at position `d` is passed over. */
  lemma SkipOther(other: string, rest: string, pattern: string, value: string, d: nat)
    requires IsPlaceholder(pattern) && other != "" && Free(other[1..])
    requires d < |pattern| && d < |other| && pattern[d] != other[d]
    ensures ReplaceAll(other + rest, pattern, value) == other + ReplaceAll(rest, pattern, value)
  {
    var whole := other + rest;
    NotPrefix(whole, pattern, d);
    assert whole[0] == other[0] && whole[1..] == other[1..] + rest;
    assert ReplaceAll(whole, pattern, value) == [other[0]] + ReplaceAll(other[1..] + rest, pattern, value);
    FreeIsInert(other[1..]);
    SkipInert(other[1..], rest, pattern, value);
    Reassociate(other, ReplaceAll(rest, pattern, value));
  }

  lemma NotPrefix(s: string, pattern: string, d: nat)
    requires d < |pattern| && d < |s| && pattern[d] != s[d]
    ensures !(pattern <= s)
  {
  }

  lemma Reassociate(s: string, tail: string)
    requires s != ""
    ensures [s[0]] + (s[1..] + tail) == s + tail
  {
  }

  lemma {:induction false} ReplaceHostnames(tokens: seq<Token>, v: Values, value: string)
    requires InertTexts(tokens) && InertValues(v) && v.hostnames == None
    ensures ReplaceAll(Show(tokens, v), HOSTNAMES, value) == Show(tokens, v.(hostnames := Some(value)))
  {
    if tokens != [] {
      var t, rest := tokens[0], Show(tokens[1..], v);
      ReplaceHostnames(tokens[1..], v, value);
      if t.Hostnames? {
        TakeMatch(rest, HOSTNAMES, value);
      } else if t.NodeName? && v.nodeName.None? {
        SkipOther(NODE_NAME, rest, HOSTNAMES, value, 6);
      } else if t.Hostname? && v.hostname.None? {
        SkipOther(HOSTNAME, rest, HOSTNAMES, value, 14);
      } else {
        SkipInert(ShowToken(t, v), rest, HOSTNAMES, value);
      }
    }
  }

  lemma {:induction false} ReplaceNodeName(tokens: seq<Token>, v: Values, value: string)
    requires InertTexts(tokens) && InertValues(v) && v.nodeName == None
    ensures ReplaceAll(Show(tokens, v), NODE_NAME, value) == Show(tokens, v.(nodeName := Some(value)))
  {
    if tokens != [] {
      var t, rest := tokens[0], Show(tokens[1..], v);
      ReplaceNodeName(tokens[1..], v, value);
      if t.NodeName? {
        TakeMatch(rest, NODE_NAME, value);
      } else if t.Hostnames? && v.hostnames.None? {
        SkipOther(HOSTNAMES, rest, NODE_NAME, value, 6);
      } else if t.Hostname? && v.hostname.None? {
        SkipOther(HOSTNAME, rest, NODE_NAME, value, 6);
      } else {
        SkipInert(ShowToken(t, v), rest, NODE_NAME, value);
      }
    }
  }

  lemma {:induction false} ReplaceHostname(tokens: seq<Token>, v: Values, value: string)
    requires InertTexts(tokens) && InertValues(v) && v.hostname == None
    ensures ReplaceAll(Show(tokens, v), HOSTNAME, value) == Show(tokens, v.(hostname := Some(value)))
  {
    if tokens != [] {
      var t, rest := tokens[0], Show(tokens[1..], v);
      ReplaceHostname(tokens[1..], v, value);
      if t.Hostname? {
        TakeMatch(rest, HOSTNAME, value);
      } else if t.Hostnames? && v.hostnames.None? {
        SkipOther(HOSTNAMES, rest, HOSTNAME, value, 14);
      } else if t.NodeName? && v.nodeName.None? {
        SkipOther(NODE_NAME, rest, HOSTNAME, value, 6);
      } else {
        SkipInert(ShowToken(t, v), rest, HOSTNAME, value);
      }
    }
  }

  /** For every template, three replacements in this order are one simultaneous substitution. */
  lemma SequentialIsSimultaneous(tokens: seq<Token>, hostnames: string, name: string, host: string)
    requires InertTexts(tokens) && Inert(hostnames) && Inert(name) && Inert(host)
    ensures ReplaceAll(ReplaceAll(ReplaceAll(Show(tokens, Values(None, None, None)), HOSTNAMES, hostnames), NODE_NAME, name), HOSTNAME, host)
         == Show(tokens, Values(Some(hostnames), Some(name), Some(host)))
    ensures var shown := Show(tokens, Values(Some(hostnames), Some(name), Some(host)));
            forall i, placeholder | 0 <= i <= |shown| && IsPlaceholder(placeholder) :: !(placeholder <= shown[i..])
  {
    ReplaceHostnames(tokens, Values(None, None, None), hostnames);
    ReplaceNodeName(tokens, Values(Some(hostnames), None, None), name);
    ReplaceHostname(tokens, Values(Some(hostnames), Some(name), None), host);
    ShownIsInert(tokens, Values(Some(hostnames), Some(name), Some(host)));
    HasNone(Show(tokens, Values(Some(hostnames), Some(name), Some(host))));
  }

  lemma {:induction false} ShownIsInert(tokens: seq<Token>, v: Values)
    requires InertTexts(tokens) && InertValues(v) && v.hostnames.Some? && v.nodeName.Some? && v.hostname.Some?
    ensures Inert(Show(tokens, v))
  {
    if tokens != [] {
      ShownIsInert(tokens[1..], v);
      InertConcat(ShowToken(tokens[0], v), Show(tokens[1..], v));
    }
  }

  lemma HasNone(s: string)
    requires Inert(s)
    ensures forall i, placeholder | 0 <= i <= |s| && IsPlaceholder(placeholder) :: !(placeholder <= s[i..])
  {
    forall i, placeholder | 0 <= i <= |s| && IsPlaceholder(placeholder) ensures !(placeholder <= s[i..]) {
      InertHasNone(s, i, placeholder);
    }
  }

  // ---- This template ----

  const TOKENS := Tokens(Concat(PROVIDER_LINES), Concat(ENGINE_LINES), Concat(CLUSTER_LINES), Concat(MIDDLE_LINES),
                         Concat(NAME_LINES), Concat(TAIL_LINES))

  lemma {:induction false} ConcatFree(lines: seq<string>)
    requires forall i | 0 <= i < |lines| :: Free(lines[i])
    ensures Free(Concat(lines)) && Inert(Concat(lines))
  {
    if lines != [] {
      ConcatFree(lines[1..]);
    }
    FreeIsInert(Concat(lines));
  }

  lemma ProviderIsInert()
    ensures Inert(Concat(PROVIDER_LINES))
  {
    ConcatFree(PROVIDER_LINES);
  }

  lemma EngineIsInert()
    ensures Inert(Concat(ENGINE_LINES))
  {
    ConcatFree(ENGINE_LINES);
  }

  lemma ClusterIsInert()
    ensures Inert(Concat(CLUSTER_LINES))
  {
    ConcatFree(CLUSTER_LINES);
  }

  lemma MiddleIsInert()
    ensures Inert(Concat(MIDDLE_LINES))
  {
    ConcatFree(MIDDLE_LINES);
  }

  lemma NameIsInert()
    ensures Inert(Concat(NAME_LINES))
  {
    ConcatFree(NAME_LINES);
  }

  lemma TailIsInert()
    ensures Inert(Concat(TAIL_LINES))
  {
    ConcatFree(TAIL_LINES);
  }

  /** The template as a sequence of tokens. */
  function Tokens(provider: string, engine: string, cluster: string, middle: string, name: string, tail: string): seq<Token> {
    [Text(provider), Text(engine + cluster), Hostnames, Text(middle), NodeName, Text(name), Hostname, Text(tail)]
  }

  lemma TokensAreInert(provider: string, engine: string, cluster: string, middle: string, name: string, tail: string)
    requires Inert(provider) && Inert(engine) && Inert(cluster) && Inert(middle) && Inert(name) && Inert(tail)
    ensures InertTexts(Tokens(provider, engine, cluster, middle, name, tail))
  {
    InertConcat(engine, cluster);
  }

  lemma TextsAreInert()
    ensures InertTexts(TOKENS)
  {
    ProviderIsInert();
    EngineIsInert();
    ClusterIsInert();
    MiddleIsInert();
    NameIsInert();
    TailIsInert();
    TokensAreInert(Concat(PROVIDER_LINES), Concat(ENGINE_LINES), Concat(CLUSTER_LINES), Concat(MIDDLE_LINES),
                   Concat(NAME_LINES), Concat(TAIL_LINES));
  }

  const GALERA_CONF := Show(TOKENS, Values(None, None, None))

  function HostList(addresses: seq<string>, ip: string): string {
    Join(addresses) + "," + ip
  }

  /** What an agent writes for these addresses and its own address: three replacements, one after the other. */
  function Render(addresses: seq<string>, ip: string): string {
    var hosts := ReplaceAll(GALERA_CONF, HOSTNAMES, HostList(addresses, ip));
    ReplaceAll(ReplaceAll(hosts, NODE_NAME, ip), HOSTNAME, ip)
  }

  /** An address as it can safely stand in the file and in a comma-separated list. */
  predicate Plain(a: string) {
    Inert(a) && ',' !in a && '"' !in a
  }

  /** What an agent reports that cannot find its own address: odd, but harmless to the file. */
  lemma NilIsPlain()
    ensures Plain("<nil>")
  {
    var nil := "<nil>";
    assert nil[2] == 'i' && HOSTNAMES[2] == NODE_NAME[2] == HOSTNAME[2] == 'o';
    FreeIsInert(nil[1..]);
  }

  /** Ordinary addresses hold none of the three characters. */
  lemma OrdinaryIsPlain(a: string)
    requires '<' !in a && ',' !in a && '"' !in a
    ensures Plain(a)
  {
    FreeIsInert(a);
  }

  predicate AllPlain(addresses: seq<string>) {
    forall i | 0 <= i < |addresses| :: Plain(addresses[i])
  }

  lemma {:induction false} JoinHas(items: seq<string>, c: char)
    requires c != ',' && forall i | 0 <= i < |items| :: c !in items[i]
    ensures c !in Join(items)
  {
    if |items| > 1 {
      JoinHas(items[1..], c);
    }
  }

  lemma {:induction false} JoinIsInert(items: seq<string>)
    requires forall i | 0 <= i < |items| :: Inert(items[i])
    ensures Inert(Join(items))
  {
    if |items| > 1 {
      JoinIsInert(items[1..]);
      FreeIsInert(",");
      InertConcat(items[0], ",");
      InertConcat(items[0] + ",", Join(items[1..]));
    }
  }

  lemma HostListIsInert(addresses: seq<string>, ip: string)
    requires AllPlain(addresses) && Plain(ip)
    ensures Inert(HostList(addresses, ip))
  {
    JoinIsInert(addresses);
    FreeIsInert(",");
    InertConcat(Join(addresses), ",");
    InertConcat(Join(addresses) + ",", ip);
  }

  /** The file is the template with every placeholder replaced by its own value, and no placeholder is left. */
  lemma RenderIsSubstitution(addresses: seq<string>, ip: string)
    requires AllPlain(addresses) && Plain(ip)
    ensures Render(addresses, ip) == Show(TOKENS, Values(Some(HostList(addresses, ip)), Some(ip), Some(ip)))
    ensures forall i, placeholder | 0 <= i <= |Render(addresses, ip)| && IsPlaceholder(placeholder) ::
              !(placeholder <= Render(addresses, ip)[i..])
  {
    TextsAreInert();
    HostListIsInert(addresses, ip);
    SequentialIsSimultaneous(TOKENS, HostList(addresses, ip), ip, ip);
  }

  /** The addresses in their order, the own address last, with commas between them. */
  lemma {:induction false} JoinAppend(items: seq<string>, last: string)
    ensures Join(items + [last]) == if items == [] then last else Join(items) + "," + last
  {
    var all := items + [last];
    if |items| > 1 {
      assert all[1..] == items[1..] + [last];
      JoinAppend(items[1..], last);
      assert Join(all) == items[0] + "," + (Join(items[1..]) + "," + last);
      assert items[0] + "," + (Join(items[1..]) + "," + last) == (items[0] + "," + Join(items[1..])) + "," + last;
    } else if |items| == 1 {
      assert all[1..] == [last];
    }
  }

  /** The text of a template with this order of placeholders: the hosts, the node's name, and its address. */
  lemma ShowInOrder(t: seq<Token>, v: Values)
    requires |t| == 8 && t[0].Text? && t[1].Text? && t[2].Hostnames? && t[3].Text? && t[4].NodeName? && t[5].Text? && t[6].Hostname? && t[7].Text?
    requires v.hostnames.Some? && v.nodeName.Some? && v.hostname.Some?
    ensures Show(t, v) ==
            t[0].text + (t[1].text + (v.hostnames.value + (t[3].text + (v.nodeName.value + (t[5].text + (v.hostname.value + t[7].text))))))
  {
    ShowFrom(t, 7, v);
    ShowFrom(t, 6, v);
    ShowFrom(t, 5, v);
    ShowFrom(t, 4, v);
    ShowFrom(t, 3, v);
    ShowFrom(t, 2, v);
    ShowFrom(t, 1, v);
    ShowFrom(t, 0, v);
    assert t[0..] == t && Show(t[8..], v) == "";
    assert t[7].text + "" == t[7].text;
  }

  lemma ShowFrom(t: seq<Token>, i: nat, v: Values)
    requires i < |t|
    ensures Show(t[i..], v) == ShowToken(t[i], v) + Show(t[i + 1..], v)
  {
    assert t[i..][1..] == t[i + 1..];
  }

  /** The file has the addresses in their order with the own address last, then the own address as name and as address. */
  lemma RenderedText(addresses: seq<string>, ip: string)
    requires AllPlain(addresses) && Plain(ip)
    ensures var hosts := if addresses == [] then "," + ip else Join(addresses + [ip]);
            |TOKENS| == 8 && TOKENS[0].Text? && TOKENS[1].Text? && TOKENS[3].Text? && TOKENS[5].Text? && TOKENS[7].Text?
            && Render(addresses, ip) ==
               TOKENS[0].text + (TOKENS[1].text + (hosts + (TOKENS[3].text + (ip + (TOKENS[5].text + (ip + TOKENS[7].text))))))
  {
    RenderIsSubstitution(addresses, ip);
    HostsInOrder(addresses, ip);
    ShowInOrder(TOKENS, Values(Some(HostList(addresses, ip)), Some(ip), Some(ip)));
  }

  lemma HostsInOrder(addresses: seq<string>, ip: string)
    ensures HostList(addresses, ip) == if addresses == [] then "," + ip else Join(addresses + [ip])
  {
    JoinAppend(addresses, ip);
    if addresses == [] {
      assert "" + "," + ip == "," + ip;
    }
  }

  // ---- Reading a rendered file back ----

  lemma SplitAtFirst(a: string, a': string, c: char, rest: string, rest': string)
    requires c !in a && c !in a'
    ensures a + [c] + rest == a' + [c] + rest' <==> a == a' && rest == rest'
  {
    var s, s' := a + [c] + rest, a' + [c] + rest';
    assert s[|a|] == c && s'[|a'|] == c;
    if |a| < |a'| {
      assert s'[|a|] == a'[|a|] && a'[|a|] in a';
    } else if |a'| < |a| {
      assert s[|a'|] == a[|a'|] && a[|a'|] in a;
    } else {
      assert a == s[..|a|] && rest == s[|a| + 1..] && a' == s'[..|a|] && rest' == s'[|a| + 1..];
    }
  }

  lemma SplitAtLast(a: string, a': string, c: char, rest: string, rest': string)
    requires c !in rest && c !in rest'
    ensures a + [c] + rest == a' + [c] + rest' <==> a == a' && rest == rest'
  {
    var s, s' := a + [c] + rest, a' + [c] + rest';
    if |rest| < |rest'| {
      assert s[|s| - 1 - |rest|] == c;
      assert s'[|s'| - 1 - |rest|] == rest'[|rest'| - 1 - |rest|] && rest'[|rest'| - 1 - |rest|] in rest';
    } else if |rest'| < |rest| {
      assert s'[|s'| - 1 - |rest'|] == c;
      assert s[|s| - 1 - |rest'|] == rest[|rest| - 1 - |rest'|] && rest[|rest| - 1 - |rest'|] in rest;
    } else {
      assert a == s[..|s| - 1 - |rest|] && rest == s[|s| - |rest|..];
      assert a' == s'[..|s'| - 1 - |rest|] && rest' == s'[|s'| - |rest|..];
    }
  }

  /** Whether two lists are the one pair of different lists with the same joined form: no item, and one empty item. */
  predicate EmptyPair(a: seq<string>, b: seq<string>) {
    (a == [] && b == [""]) || (a == [""] && b == [])
  }

  /** Comma-free lists have the same joined form exactly when they are equal, or the empty pair. */
  lemma {:induction false} JoinInjective(a: seq<string>, b: seq<string>)
    requires forall i | 0 <= i < |a| :: ',' !in a[i]
    requires forall i | 0 <= i < |b| :: ',' !in b[i]
    ensures Join(a) == Join(b) <==> a == b || EmptyPair(a, b)
  {
    if |a| > 1 && |b| > 1 {
      assert Join(a) == a[0] + "," + Join(a[1..]) && Join(b) == b[0] + "," + Join(b[1..]);
      JoinInjective(a[1..], b[1..]);
      SplitAtFirst(a[0], b[0], ',', Join(a[1..]), Join(b[1..]));
      assert a == [a[0]] + a[1..] && b == [b[0]] + b[1..];
    } else if |a| > 1 {
      assert Join(a)[|a[0]|] == ',';
    } else if |b| > 1 {
      assert Join(b)[|b[0]|] == ',';
    }
  }

  lemma ShowCons(tokens: seq<Token>, v: Values)
    requires tokens != []
    ensures Show(tokens, v) == ShowToken(tokens[0], v) + Show(tokens[1..], v)
  {
  }

  /** The part of a shown template from its host list on. */
  lemma FromHosts(tokens: seq<Token>, v: Values) returns (rest: string)
    requires |tokens| >= 4 && tokens[0].Text? && tokens[1].Text? && tokens[2].Hostnames? && tokens[3].Text?
    requires tokens[3].text != "" && tokens[3].text[0] == '"' && v.hostnames.Some?
    ensures Show(tokens, v) == tokens[0].text + (tokens[1].text + (v.hostnames.value + ['"'] + rest))
  {
    assert tokens[1..][1..] == tokens[2..] && tokens[2..][1..] == tokens[3..];
    ShowCons(tokens, v);
    ShowCons(tokens[1..], v);
    ShowCons(tokens[2..], v);
    ShowCons(tokens[3..], v);
    var quoted := Show(tokens[3..], v);
    assert quoted[0] == '"';
    rest := quoted[1..];
    assert quoted == ['"'] + rest;
    assert v.hostnames.value + quoted == v.hostnames.value + ['"'] + rest;
  }

  lemma Cancel(p: string, s: string, s': string)
    ensures p + s == p + s' <==> s == s'
  {
    assert (p + s)[|p|..] == s && (p + s')[|p|..] == s';
  }

  lemma HostsAreRecoverable(tokens: seq<Token>, v: Values, v': Values)
    requires |tokens| >= 4 && tokens[0].Text? && tokens[1].Text? && tokens[2].Hostnames? && tokens[3].Text?
    requires tokens[3].text != "" && tokens[3].text[0] == '"' && v.hostnames.Some? && v'.hostnames.Some?
    requires '"' !in v.hostnames.value && '"' !in v'.hostnames.value
    requires Show(tokens, v) == Show(tokens, v')
    ensures v.hostnames == v'.hostnames
  {
    var rest := FromHosts(tokens, v);
    var rest' := FromHosts(tokens, v');
    var h, h' := v.hostnames.value, v'.hostnames.value;
    var s, s' := h + ['"'] + rest, h' + ['"'] + rest';
    Cancel(tokens[0].text, tokens[1].text + s, tokens[1].text + s');
    Cancel(tokens[1].text, s, s');
    SplitAtFirst(h, h', '"', rest, rest');
  }

  lemma QuoteFollowsHosts()
    ensures Concat(MIDDLE_LINES) != "" && Concat(MIDDLE_LINES)[0] == '"'
  {
    assert Concat(MIDDLE_LINES) == MIDDLE_LINES[0] + Concat(MIDDLE_LINES[1..]);
  }

  /**
   * The file determines what it was rendered from: equal files mean equal own addresses and equal address lists,
   * in the same order, except that no address at all and one empty address give the same file.
   */
  lemma RenderInjective(addresses: seq<string>, ip: string, addresses': seq<string>, ip': string)
    requires AllPlain(addresses) && Plain(ip) && AllPlain(addresses') && Plain(ip')
    ensures Render(addresses, ip) == Render(addresses', ip') <==>
            ip == ip' && (addresses == addresses' || EmptyPair(addresses, addresses'))
  {
    RenderIsSubstitution(addresses, ip);
    RenderIsSubstitution(addresses', ip');
    JoinInjective(addresses, addresses');
    SplitAtLast(Join(addresses), Join(addresses'), ',', ip, ip');
    assert HostList(addresses, ip) == Join(addresses) + [','] + ip && HostList(addresses', ip') == Join(addresses') + [','] + ip';
    if Render(addresses, ip) == Render(addresses', ip') {
      QuoteFollowsHosts();
      JoinHas(addresses, '"');
      JoinHas(addresses', '"');
      HostsAreRecoverable(TOKENS, Values(Some(HostList(addresses, ip)), Some(ip), Some(ip)),
                          Values(Some(HostList(addresses', ip')), Some(ip'), Some(ip')));
    }
  }
}
