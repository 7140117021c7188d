/**
 Site blocks and their merging (`appendSiteBlock`, `appendProbeSiteBlock` and
 `mergeRenderedSiteBlocks`, caddy.ts).

 Blocks with the same body and the same TLS email become one block with all their labels.
 What a set of blocks means is which label is served with which body and email.
 */
module BlockMerge {
  import opened Wrappers
  import opened Text

  datatype Block = Block(labels: seq<string>, body: seq<string>, tlsEmail: Option<string>)

  /** What `JSON.stringify` writes into the map's key; two such texts are equal when these are. */
  datatype Signature = Signature(tlsEmail: string, body: seq<string>)

  function Sig(b: Block): Signature {
    Signature(b.tlsEmail.GetOr(""), b.body)
  }

  // ---- The merge -------------------------------------------------------------------

  /** The place of the first block with this signature, or the length if there is none. */
  function Place(blocks: seq<Block>, sig: Signature): (r: nat)
    ensures r <= |blocks|
    ensures r < |blocks| ==> Sig(blocks[r]) == sig
    ensures forall k :: 0 <= k < r ==> Sig(blocks[k]) != sig
  {
    if blocks == [] || Sig(blocks[0]) == sig then 0 else 1 + Place(blocks[1..], sig)
  }

  function Joined(merged: seq<Block>, b: Block): seq<Block> {
    var k := Place(merged, Sig(b));
    if k == |merged| then merged + [b] else merged[k := merged[k].(labels := merged[k].labels + b.labels)]
  }

  function Merge(blocks: seq<Block>): seq<Block> {
    if blocks == [] then [] else Joined(Merge(blocks[..|blocks| - 1]), blocks[|blocks| - 1])
  }

  /** No two blocks have one signature. */
  ghost predicate DistinctSigs(blocks: seq<Block>) {
    forall j, k :: 0 <= j < k < |blocks| ==> Sig(blocks[j]) != Sig(blocks[k])
  }

  /** The map knows the place of every block, and nothing else. */
  ghost predicate Indexed(index: map<Signature, nat>, merged: seq<Block>) {
    && (forall sig :: sig in index ==> index[sig] < |merged| && Sig(merged[index[sig]]) == sig)
    && (forall k :: 0 <= k < |merged| ==> Sig(merged[k]) in index && index[Sig(merged[k])] == k)
  }

  lemma IndexedPlace(index: map<Signature, nat>, merged: seq<Block>, sig: Signature)
    requires Indexed(index, merged)
    ensures Place(merged, sig) == if sig in index then index[sig] else |merged|
  {
    var k := Place(merged, sig);
    hide Place;
    assert k < |merged| ==> Sig(merged[k]) in index;
  }

  method MergeRenderedSiteBlocks(blocks: seq<Block>) returns (merged: seq<Block>)
    ensures merged == Merge(blocks)
  {
    hide Place, Sig;
    merged := [];
    var index: map<Signature, nat> := map[];
    for i := 0 to |blocks|
      invariant merged == Merge(blocks[..i])
      invariant Indexed(index, merged)
    {
      assert blocks[..i + 1][..i] == blocks[..i];
      var b := blocks[i];
      IndexedPlace(index, merged, Sig(b));
      if Sig(b) !in index {
        AppendIndexed(index, merged, b);
        index := index[Sig(b) := |merged|];
        merged := merged + [b];
      } else {
        var k := index[Sig(b)];
        MoreLabels(index, merged, k, merged[k].labels + b.labels);
        merged := merged[k := merged[k].(labels := merged[k].labels + b.labels)];
      }
    }
    assert blocks[..|blocks|] == blocks;
  }

  lemma AppendIndexed(index: map<Signature, nat>, merged: seq<Block>, b: Block)
    requires Indexed(index, merged) && Sig(b) !in index
    ensures Indexed(index[Sig(b) := |merged|], merged + [b])
  {
    hide Sig;
  }

  lemma MoreLabels(index: map<Signature, nat>, merged: seq<Block>, k: nat, labels: seq<string>)
    requires Indexed(index, merged) && k < |merged|
    ensures Indexed(index, merged[k := merged[k].(labels := labels)])
  {
    SameSig(merged[k], labels);
    hide Sig;
  }

  lemma SameSig(b: Block, labels: seq<string>)
    ensures Sig(b.(labels := labels)) == Sig(b)
  {
  }

  // ---- Meaning ---------------------------------------------------------------------

  /** Which label is served how: the label with its block's body and email, once for each time it is written. */
  function Pairs(blocks: seq<Block>): multiset<(string, Signature)> {
    if blocks == [] then multiset{}
    else Pairs(blocks[..|blocks| - 1]) + Named(blocks[|blocks| - 1].labels, Sig(blocks[|blocks| - 1]))
  }

  function Named(labels: seq<string>, sig: Signature): multiset<(string, Signature)> {
    if labels == [] then multiset{} else Named(labels[..|labels| - 1], sig) + multiset{(labels[|labels| - 1], sig)}
  }

  lemma {:induction false} NamedAppend(a: seq<string>, b: seq<string>, sig: Signature)
    ensures Named(a + b, sig) == Named(a, sig) + Named(b, sig)
    decreases |b|
  {
    if b == [] {
      assert a + b == a;
    } else {
      NamedAppend(a, b[..|b| - 1], sig);
      assert (a + b)[..|a + b| - 1] == a + b[..|b| - 1];
    }
  }

  lemma {:induction false} PairsAppend(a: seq<Block>, b: seq<Block>)
    ensures Pairs(a + b) == Pairs(a) + Pairs(b)
    decreases |b|
  {
    hide Sig, Named;
    if b == [] {
      assert a + b == a;
    } else {
      PairsAppend(a, b[..|b| - 1]);
      assert (a + b)[..|a + b| - 1] == a + b[..|b| - 1];
    }
  }

  lemma PairsOne(b: Block)
    ensures Pairs([b]) == Named(b.labels, Sig(b))
  {
    assert [b][..0] == [];
  }

  lemma PairsAt(a: seq<Block>, b: Block, c: seq<Block>)
    ensures Pairs(a + [b] + c) == Pairs(a) + Pairs(c) + Named(b.labels, Sig(b))
  {
    hide Pairs, Named, Sig;
    PairsOne(b);
    PairsAppend(a + [b], c);
    PairsAppend(a, [b]);
  }

  lemma PairsJoin(merged: seq<Block>, k: nat, labels: seq<string>)
    requires k < |merged|
    ensures Pairs(merged[k := merged[k].(labels := merged[k].labels + labels)])
         == Pairs(merged) + Named(labels, Sig(merged[k]))
  {
    var a, b, c := merged[..k], merged[k], merged[k + 1..];
    var more := b.(labels := b.labels + labels);
    SameSig(b, b.labels + labels);
    hide Pairs, Named, Sig;
    NamedAppend(b.labels, labels, Sig(b));
    Replaced(merged, k, more);
    PairsAt(a, b, c);
    PairsAt(a, more, c);
    Regroup(Pairs(a) + Pairs(c), Named(b.labels, Sig(b)), Named(labels, Sig(b)));
  }

  lemma Replaced(merged: seq<Block>, k: nat, b: Block)
    requires k < |merged|
    ensures merged == merged[..k] + [merged[k]] + merged[k + 1..]
    ensures merged[k := b] == merged[..k] + [b] + merged[k + 1..]
  {
  }

  lemma Regroup<T>(m: multiset<T>, n: multiset<T>, o: multiset<T>)
    ensures m + (n + o) == m + n + o
  {
  }

  /** Merging changes no label, no body and no email, and loses or repeats none. */
  lemma {:induction false} MergeKeepsMeaning(blocks: seq<Block>)
    ensures Pairs(Merge(blocks)) == Pairs(blocks)
    decreases |blocks|
  {
    hide Sig, Named;
    if blocks != [] {
      var init, b := blocks[..|blocks| - 1], blocks[|blocks| - 1];
      MergeKeepsMeaning(init);
      var merged := Merge(init);
      var k := Place(merged, Sig(b));
      hide Place;
      if k == |merged| {
        PairsAppend(merged, [b]);
        PairsOne(b);
      } else {
        PairsJoin(merged, k, b.labels);
      }
    }
  }

  /** Merging leaves no two blocks that could be merged. */
  lemma {:induction false} MergeIsComplete(blocks: seq<Block>)
    ensures DistinctSigs(Merge(blocks))
    decreases |blocks|
  {
    hide Sig;
    if blocks != [] {
      var init, b := blocks[..|blocks| - 1], blocks[|blocks| - 1];
      MergeIsComplete(init);
      var merged := Merge(init);
      var k := Place(merged, Sig(b));
      hide Place;
      if k < |merged| { SameSig(merged[k], merged[k].labels + b.labels); }
    }
  }

  lemma {:induction false} NothingToMerge(blocks: seq<Block>)
    requires DistinctSigs(blocks)
    ensures Merge(blocks) == blocks
    decreases |blocks|
  {
    hide Sig;
    if blocks != [] {
      var init, b := blocks[..|blocks| - 1], blocks[|blocks| - 1];
      NothingToMerge(init);
      assert forall k :: 0 <= k < |init| ==> Sig(blocks[k]) != Sig(blocks[|blocks| - 1]);
      assert init + [b] == blocks;
    }
  }

  lemma MergeIsIdempotent(blocks: seq<Block>)
    ensures Merge(Merge(blocks)) == Merge(blocks)
  {
    MergeIsComplete(blocks);
    NothingToMerge(Merge(blocks));
  }

  // ---- Looking a label up ----------------------------------------------------------

  /** What a label is served with: that of the first block that has it. */
  function Lookup(blocks: seq<Block>, name: string): Option<Signature> {
    if blocks == [] then None
    else if name in blocks[0].labels then Some(Sig(blocks[0]))
    else Lookup(blocks[1..], name)
  }

  /** No label is written twice. */
  ghost predicate DistinctLabels(blocks: seq<Block>) {
    forall name: string, s, t :: (name, s) in Pairs(blocks) && (name, t) in Pairs(blocks) ==>
      s == t && Pairs(blocks)[(name, s)] == 1
  }

  lemma {:induction false} NamedHas(labels: seq<string>, sig: Signature, name: string, s: Signature)
    ensures (name, s) in Named(labels, sig) <==> name in labels && s == sig
    decreases |labels|
  {
    if labels != [] {
      NamedHas(labels[..|labels| - 1], sig, name, s);
      assert labels == labels[..|labels| - 1] + [labels[|labels| - 1]];
    }
  }

  lemma {:induction false} LookupFinds(blocks: seq<Block>, name: string)
    ensures var found := Lookup(blocks, name);
      && (found.Some? ==> (name, found.value) in Pairs(blocks))
      && (found.None? ==> forall s :: (name, s) !in Pairs(blocks))
  {
    hide Sig, Named;
    if blocks != [] {
      var b, rest := blocks[0], blocks[1..];
      LookupFinds(rest, name);
      assert blocks == [b] + rest;
      PairsAppend([b], rest);
      PairsOne(b);
      forall s ensures (name, s) in Named(b.labels, Sig(b)) <==> name in b.labels && s == Sig(b) {
        NamedHas(b.labels, Sig(b), name, s);
      }
    }
  }

  /** Looking any label up gives the same body and email before and after merging. */
  lemma LookupPreserved(blocks: seq<Block>, name: string)
    requires DistinctLabels(blocks)
    ensures Lookup(Merge(blocks), name) == Lookup(blocks, name)
    ensures DistinctLabels(Merge(blocks))
  {
    hide Merge, Lookup, Pairs;
    MergeKeepsMeaning(blocks);
    LookupFinds(blocks, name);
    LookupFinds(Merge(blocks), name);
  }

  // ---- The blocks of the hosts -----------------------------------------------------

  /** What is known of a host when its blocks are written. */
  datatype Host = Host(name: string, body: seq<string>, email: string, fallback: bool, httpOnly: bool, probe: bool)

  /** `email?.trim() || undefined` */
  function TlsEmail(email: string): Option<string> {
    var trimmed := Trim(email);
    if trimmed == "" then None else Some(trimmed)
  }

  function Http(name: string): string { "http://" + name }

  /** `appendProbeSiteBlock` or `appendSiteBlock`. */
  function HostBlocks(h: Host): seq<Block> {
    if h.probe then [Block([h.name], ["    respond 204"], TlsEmail(h.email))]
    else if h.httpOnly then [Block([Http(h.name)], h.body, None)]
    else
      (if h.fallback then [Block([Http(h.name)], h.body, None)] else [])
      + [Block([h.name], h.body, TlsEmail(h.email))]
  }

  function AllBlocks(hosts: seq<Host>): seq<Block> {
    if hosts == [] then [] else AllBlocks(hosts[..|hosts| - 1]) + HostBlocks(hosts[|hosts| - 1])
  }

  /** How a host is served under a label, if at all. */
  function Serving(h: Host, name: string): Option<Signature> {
    if name == h.name then
      if h.probe then Some(Signature(TlsEmail(h.email).GetOr(""), ["    respond 204"]))
      else if h.httpOnly then None
      else Some(Signature(TlsEmail(h.email).GetOr(""), h.body))
    else if name == Http(h.name) && !h.probe && (h.httpOnly || h.fallback) then Some(Signature("", h.body))
    else None
  }

  function IsHttp(name: string): bool { "http://" <= name }

  /** Keys of a map, none of them with a scheme. */
  ghost predicate HostNames(hosts: seq<Host>) {
    && (forall i, j :: 0 <= i < j < |hosts| ==> hosts[i].name != hosts[j].name)
    && (forall i :: 0 <= i < |hosts| ==> !IsHttp(hosts[i].name))
  }

  /** All that is served for a host. */
  function Served(h: Host): multiset<(string, Signature)> {
    var secure := TlsEmail(h.email).GetOr("");
    if h.probe then multiset{(h.name, Signature(secure, ["    respond 204"]))}
    else if h.httpOnly then multiset{(Http(h.name), Signature("", h.body))}
    else (if h.fallback then multiset{(Http(h.name), Signature("", h.body))} else multiset{})
         + multiset{(h.name, Signature(secure, h.body))}
  }

  lemma HostPairs(h: Host)
    ensures Pairs(HostBlocks(h)) == Served(h)
  {
    OneLabel(h.name, ["    respond 204"], TlsEmail(h.email));
    OneLabel(h.name, h.body, TlsEmail(h.email));
    OneLabel(Http(h.name), h.body, None);
    PairsAppend([Block([Http(h.name)], h.body, None)], [Block([h.name], h.body, TlsEmail(h.email))]);
    NoBlocks([Block([h.name], h.body, TlsEmail(h.email))]);
    hide Pairs, TlsEmail, Http;
  }

  lemma NoBlocks(blocks: seq<Block>)
    ensures [] + blocks == blocks && Pairs([]) == multiset{}
  {
  }

  lemma OneLabel(name: string, body: seq<string>, email: Option<string>)
    ensures Pairs([Block([name], body, email)]) == multiset{(name, Signature(email.GetOr(""), body))}
  {
    var b := Block([name], body, email);
    PairsOne(b);
    assert [name][..0] == [];
  }

  lemma ServedMeans(h: Host, name: string, s: Signature)
    requires !IsHttp(h.name)
    ensures Served(h)[(name, s)] == if Serving(h, name) == Some(s) then 1 else 0
  {
    assert h.name != Http(h.name) by { assert IsHttp(Http(h.name)); }
    hide TlsEmail, Http, IsHttp;
  }

  /** A label stands for one host only. */
  lemma OtherHost(h: Host, g: Host, name: string)
    requires !IsHttp(h.name) && !IsHttp(g.name) && h.name != g.name
    ensures !(Serving(h, name).Some? && Serving(g, name).Some?)
  {
    assert IsHttp(Http(h.name)) && IsHttp(Http(g.name));
    assert Http(h.name)[7..] == h.name && Http(g.name)[7..] == g.name;
    hide TlsEmail, IsHttp, Http;
  }

  /** Some host is served in this way under the label. */
  ghost predicate SomeServing(hosts: seq<Host>, name: string, s: Signature) {
    exists i :: 0 <= i < |hosts| && Serving(hosts[i], name) == Some(s)
  }

  lemma LastServing(hosts: seq<Host>, name: string, s: Signature)
    requires HostNames(hosts) && hosts != []
    ensures var init, last := hosts[..|hosts| - 1], hosts[|hosts| - 1];
      && HostNames(init)
      && (SomeServing(hosts, name, s) <==> SomeServing(init, name, s) || Serving(last, name) == Some(s))
      && !(SomeServing(init, name, s) && Serving(last, name) == Some(s))
  {
    hide Serving, IsHttp;
    var init, last := hosts[..|hosts| - 1], hosts[|hosts| - 1];
    if i :| 0 <= i < |init| && Serving(init[i], name) == Some(s) {
      assert hosts[i] == init[i];
      OtherHost(init[i], last, name);
    }
    if i :| 0 <= i < |hosts| && Serving(hosts[i], name) == Some(s) {
      assert i < |init| ==> hosts[i] == init[i];
    }
  }

  lemma {:induction false} AllPairs(hosts: seq<Host>, name: string, s: Signature)
    requires HostNames(hosts)
    ensures Pairs(AllBlocks(hosts))[(name, s)] == if SomeServing(hosts, name, s) then 1 else 0
    decreases |hosts|
  {
    hide Serving, HostBlocks, Served, SomeServing, IsHttp;
    if hosts == [] {
      NoneServing(name, s);
    } else {
      var init, h := hosts[..|hosts| - 1], hosts[|hosts| - 1];
      LastServing(hosts, name, s);
      AllPairs(init, name, s);
      hide HostNames;
      PairsAppend(AllBlocks(init), HostBlocks(h));
      HostPairs(h);
      NoScheme(hosts);
      ServedMeans(h, name, s);
    }
  }

  lemma NoneServing(name: string, s: Signature)
    ensures !SomeServing([], name, s) && Pairs(AllBlocks([])) == multiset{}
  {
  }

  lemma NoScheme(hosts: seq<Host>)
    requires HostNames(hosts) && hosts != []
    ensures !IsHttp(hosts[|hosts| - 1].name)
  {
  }

  /**
   In the merged file every host is served with its own body and its own email, and its
   plain-HTTP label, when it has one, with its own body.
   */
  lemma HostsServed(hosts: seq<Host>, i: nat, name: string)
    requires HostNames(hosts) && i < |hosts| && Serving(hosts[i], name).Some?
    ensures Lookup(Merge(AllBlocks(hosts)), name) == Serving(hosts[i], name)
  {
    var blocks := AllBlocks(hosts);
    LabelsApart(hosts);
    LookupPreserved(blocks, name);
    LookupFinds(blocks, name);
    AllPairs(hosts, name, Serving(hosts[i], name).value);
    hide Lookup, Merge, Pairs, AllBlocks, Serving;
  }

  /** Wherever a label stands, its block is among the pairs. */
  lemma {:induction false} LabelPaired(blocks: seq<Block>, k: nat, name: string)
    requires k < |blocks| && name in blocks[k].labels
    ensures (name, Sig(blocks[k])) in Pairs(blocks)
    decreases |blocks|
  {
    hide Sig, Named;
    var b, rest := blocks[0], blocks[1..];
    assert blocks == [b] + rest;
    PairsAppend([b], rest);
    if k == 0 {
      PairsOne(b);
      NamedHas(b.labels, Sig(b), name, Sig(b));
    } else {
      assert rest[k - 1] == blocks[k];
      LabelPaired(rest, k - 1, name);
    }
  }

  lemma {:induction false} LookupPlace(blocks: seq<Block>, name: string)
    ensures Lookup(blocks, name).Some? ==> exists k :: 0 <= k < |blocks| && name in blocks[k].labels
  {
    if blocks != [] && name !in blocks[0].labels {
      LookupPlace(blocks[1..], name);
      if k :| 0 <= k < |blocks[1..]| && name in blocks[1..][k].labels { assert blocks[k + 1] == blocks[1..][k]; }
    }
  }

  /** Every block with a label that a host is served under is that host's, and there is one. */
  lemma WrittenOnce(hosts: seq<Host>, i: nat, name: string)
    requires HostNames(hosts) && i < |hosts| && Serving(hosts[i], name).Some?
    ensures var blocks := Merge(AllBlocks(hosts));
      && (exists k :: 0 <= k < |blocks| && name in blocks[k].labels)
      && forall k :: 0 <= k < |blocks| && name in blocks[k].labels ==> Some(Sig(blocks[k])) == Serving(hosts[i], name)
  {
    var blocks := Merge(AllBlocks(hosts));
    HostsServed(hosts, i, name);
    LookupPlace(blocks, name);
    LookupFinds(blocks, name);
    LabelsApart(hosts);
    LookupPreserved(AllBlocks(hosts), name);
    hide Lookup, Merge, Pairs, AllBlocks, Serving, HostNames, Sig;
    forall k | 0 <= k < |blocks| && name in blocks[k].labels
      ensures Some(Sig(blocks[k])) == Serving(hosts[i], name)
    {
      LabelPaired(blocks, k, name);
    }
  }

  /** A label that no host is served under is in no block. */
  lemma NotWritten(hosts: seq<Host>, name: string)
    requires HostNames(hosts) && forall i :: 0 <= i < |hosts| ==> Serving(hosts[i], name).None?
    ensures forall k :: 0 <= k < |Merge(AllBlocks(hosts))| ==> name !in Merge(AllBlocks(hosts))[k].labels
  {
    var blocks := Merge(AllBlocks(hosts));
    MergeKeepsMeaning(AllBlocks(hosts));
    hide Lookup, Merge, Pairs, AllBlocks, Serving, HostNames, Sig;
    forall k | 0 <= k < |blocks| ensures name !in blocks[k].labels {
      if name in blocks[k].labels {
        LabelPaired(blocks, k, name);
        AllPairs(hosts, name, Sig(blocks[k]));
        assert false;
      }
    }
  }

  /** Distinct hosts have distinct labels. */
  lemma LabelsApart(hosts: seq<Host>)
    requires HostNames(hosts)
    ensures DistinctLabels(AllBlocks(hosts))
  {
    hide Pairs, AllBlocks, Serving;
    var pairs := Pairs(AllBlocks(hosts));
    forall name: string, s, t | (name, s) in pairs && (name, t) in pairs ensures s == t && pairs[(name, s)] == 1 {
      AllPairs(hosts, name, s);
      AllPairs(hosts, name, t);
      var i :| 0 <= i < |hosts| && Serving(hosts[i], name) == Some(s);
      var j :| 0 <= j < |hosts| && Serving(hosts[j], name) == Some(t);
      if i != j { OtherHost(hosts[i], hosts[j], name); }
    }
  }
}
