/** Lists of channels on their way to a client: "#a#b#" printed by a client or by the router, and
  * taken apart again by the client that asked. */
module ClientChanlist {
  import opened Basics
  import opened ChanList
  import opened CacheModel

  const MAX_CHAN_LENGTH := 64

  /** What sess_make_channel_list prints for these names. */
  function Printed(names: seq<string>): string { Join(names) + ['#'] }

  /** A name the decoder keeps. */
  predicate Keeps(name: string) { 0 < |name| <= MAX_CHAN_LENGTH }

  function Kept(names: seq<string>): (r: seq<string>)
    ensures forall n :: n in r <==> n in names && Keeps(n)
  {
    if names == [] then [] else (if Keeps(names[0]) then [names[0]] else []) + Kept(names[1..])
  }

  predicate Framed(s: string) { |s| >= 3 && s[0] == '#' && s[|s| - 1] == '#' }

  /** What decode_chanlist finds: nothing in a text that is not framed, otherwise the pieces between
    * the marks that will do as names. */
  function Decoded(s: string): seq<string> { if Framed(s) then Kept(Split(s[1..])) else [] }

  // ---------------------------------------------------------------- the two together

  lemma PrintedStep(n: string, names: seq<string>)
    ensures Printed([n] + names)[1..] == n + Printed(names)
    ensures Printed(names)[0] == '#'
  {
    assert ([n] + names)[1..] == names;
    assert Printed([n] + names) == ['#'] + (n + Printed(names));
  }

  lemma {:induction false} PrintedSplits(names: seq<string>)
    requires Plain(names)
    ensures Split(Printed(names)[1..]) == names + [""]
  {
    if names == [] {
      assert Printed(names)[1..] == "";
      assert Split("") == [""];
    } else {
      hide Split, Printed;
      var n, more := names[0], names[1..];
      assert names == [n] + more && '#' !in n;
      PrintedStep(n, more);
      SplitCut(n, Printed(more));
      PrintedSplits(more);
      assert [n] + more + [""] == [n] + (more + [""]);
    }
  }

  lemma {:induction false} KeptAppend(names: seq<string>)
    ensures Kept(names + [""]) == Kept(names)
  {
    if names != [] {
      assert (names + [""])[1..] == names[1..] + [""];
      KeptAppend(names[1..]);
    }
  }

  lemma {:induction false} KeptSize(names: seq<string>)
    ensures |Kept(names)| <= |names|
    ensures Kept(names) == names <==> forall i :: 0 <= i < |names| ==> Keeps(names[i])
  {
    if names != [] {
      KeptSize(names[1..]);
      assert names == [names[0]] + names[1..];
      if !Keeps(names[0]) {
        assert |Kept(names)| < |names|;
      } else {
        assert Kept(names)[1..] == Kept(names[1..]);
        if forall i :: 0 <= i < |names[1..]| ==> Keeps(names[1..][i]) {
          assert forall i :: 0 < i < |names| ==> names[i] == names[1..][i - 1];
        }
      }
    }
  }

  lemma {:induction false} PrintedLength(names: seq<string>)
    ensures |names| <= |Join(names)|
    ensures |Join(names)| <= 1 ==> Kept(names) == []
  {
    if names != [] { PrintedLength(names[1..]); }
  }

  /** Decoding a printed list, even an empty one, gives the names in order, but for those that are
    * empty or too long. */
  lemma DecodePrinted(names: seq<string>)
    requires Plain(names)
    ensures Decoded(Printed(names)) == Kept(names)
  {
    assert names == [] ==> Printed(names) == ['#'];
    hide Split, Join, Kept;
    var s := Printed(names);
    PrintedLength(names);
    if |s| >= 3 {
      assert names != [];
      assert Framed(s);
      PrintedSplits(names);
      KeptAppend(names);
    }
  }

  /** For every list of names: it survives exactly if no name holds the mark, is empty, or is too
    * long. */
  lemma DecodePrintedExactly(names: seq<string>)
    ensures Decoded(Printed(names)) == names
      <==> forall i :: 0 <= i < |names| ==> '#' !in names[i] && 0 < |names[i]| <= 64
  {
    hide Join;
    if Plain(names) {
      DecodePrinted(names);
      KeptSize(names);
    } else {
      var i :| 0 <= i < |names| && '#' in names[i];
      var d := Decoded(Printed(names));
      assert forall n :: n in d ==> '#' !in n;
      assert names[i] in names && names[i] !in d;
    }
  }

  // ---------------------------------------------------------------- the router's reply

  function Names(chans: seq<Chan>): (r: seq<string>)
    ensures |r| == |chans| && forall i :: 0 <= i < |r| ==> r[i] == chans[i].name
  {
    seq(|chans|, i requires 0 <= i < |chans| => chans[i].name)
  }

  /** The names the router mentions are the longest run of whole names, from the front of its list,
    * that fits the field. */
  lemma {:induction false} KnownNamesLongest(chans: seq<Chan>, used: nat)
    requires used <= CHANLIST_LEN_MAX
    ensures var known := KnownNames(chans, used);
      && known <= Names(chans)
      && used + |Join(known)| <= CHANLIST_LEN_MAX
      && (|known| < |chans| ==> used + |Join(known)| + 1 + |chans[|known|].name| > CHANLIST_LEN_MAX)
  {
    var known := KnownNames(chans, used);
    if known != [] {
      var n := chans[0].name;
      KnownNamesLongest(chans[1..], used + |n| + 1);
      assert known[1..] == KnownNames(chans[1..], used + |n| + 1);
      assert Names(chans) == [n] + Names(chans[1..]);
      assert |Join(known)| == 1 + |n| + |Join(known[1..])|;
      if |known| < |chans| { assert chans[1..][|known[1..]|] == chans[|known|]; }
    }
  }

  /** A client that asks a router for its channels gets back the names the router put in, in the order
    * of the router's list, exactly if those names are not empty. */
  lemma ReplyDecodes(chans: seq<Chan>)
    requires forall j :: 0 <= j < |chans| ==> '#' !in chans[j].name && |chans[j].name| <= CHANNAME_LEN_MAX
    ensures var known := KnownNames(chans, 0);
      && |Join(known)| <= CHANLIST_LEN_MAX
      && (Decoded(Join(known) + "#") == known <==> "" !in known)
  {
    var known := KnownNames(chans, 0);
    KnownNamesLongest(chans, 0);
    assert forall i :: 0 <= i < |known| ==> known[i] == Names(chans)[i];
    DecodePrintedExactly(known);
    assert Join(known) + "#" == Printed(known);
    if "" !in known {
      assert forall i :: 0 <= i < |known| ==> Keeps(known[i]);
    } else {
      var i :| 0 <= i < |known| && known[i] == "";
      assert !Keeps(known[i]);
    }
  }

  // ---------------------------------------------------------------- as they run

  /** The kinds of session pages, of which only channels are listed. */
  datatype Session = ChannelPage(name: string) | OtherPage

  function ChannelNames(pages: seq<Session>): seq<string> {
    if pages == [] then []
    else (if pages[0].ChannelPage? then [pages[0].name] else []) + ChannelNames(pages[1..])
  }

  lemma {:induction false} ChannelNamesAppend(pages: seq<Session>, k: nat)
    requires k < |pages|
    ensures ChannelNames(pages[..k + 1])
         == ChannelNames(pages[..k]) + (if pages[k].ChannelPage? then [pages[k].name] else [])
  {
    if k > 0 {
      assert pages[..k + 1][1..] == pages[1..][..k] && pages[..k][1..] == pages[1..][..k - 1];
      ChannelNamesAppend(pages[1..], k - 1);
    } else {
      assert pages[..1][1..] == [];
    }
  }

  /** sess_make_channel_list. */
  method SessMakeChannelList(pages: seq<Session>) returns (s: string)
    ensures s == Printed(ChannelNames(pages))
  {
    s := "";
    var l := 0;
    while l < |pages|
      invariant 0 <= l <= |pages|
      invariant s == Join(ChannelNames(pages[..l]))
    {
      ChannelNamesAppend(pages, l);
      ghost var names := ChannelNames(pages[..l]);
      assert names + [] == names;
      if pages[l].ChannelPage? {
        JoinPush(names, pages[l].name);
        assert s + ['#'] + pages[l].name == s + (['#'] + pages[l].name);
        s := s + ['#'];
        s := s + pages[l].name;
      }
      l := l + 1;
    }
    assert pages[..l] == pages;
    s := s + ['#'];
  }

  lemma KeptCons(n: string, tail: seq<string>)
    ensures Kept([n] + tail) == (if Keeps(n) then [n] else []) + Kept(tail)
  {
    assert ([n] + tail)[1..] == tail;
  }

  /** One jump from mark to mark. */
  lemma DecodeStep(rest: string, k: nat)
    requires k == IndexOf(rest, '#') < |rest|
    ensures Kept(Split(rest)) == (if Keeps(rest[..k]) then [rest[..k]] else []) + Kept(Split(rest[k + 1..]))
  {
    hide Kept, Split, IndexOf;
    SplitOnce(rest);
    KeptCons(rest[..k], Split(rest[k + 1..]));
  }

  lemma NothingLeft()
    ensures Kept(Split("")) == []
  {
    assert [""][1..] == [];
  }

  /** decode_chanlist: the pointer jumps from mark to mark until it stands on the terminator. */
  method DecodeChanlist(chanstring: string) returns (chanlist: seq<string>)
    ensures chanlist == Decoded(chanstring)
  {
    hide Split, Kept;
    chanlist := [];
    var len := |chanstring|;
    if len < 3 || chanstring[0] != '#' || chanstring[len - 1] != '#' { return; }
    var p := 1;
    var more := true;
    assert [] + Kept(Split(chanstring[1..])) == Kept(Split(chanstring[1..]));
    while more
      invariant 1 <= p <= |chanstring|
      invariant more <==> p < |chanstring|
      invariant chanlist + Kept(Split(chanstring[p..])) == Kept(Split(chanstring[1..]))
      decreases |chanstring| - p, more
    {
      ghost var rest, k := chanstring[p..], IndexOf(chanstring[p..], '#');
      assert rest[|rest| - 1] == '#';
      DecodeStep(rest, k);
      var next := p + IndexOf(chanstring[p..], '#');
      var name := chanstring[p..next];
      assert name == rest[..k] && chanstring[next + 1..] == rest[k + 1..];
      ghost var tail := Kept(Split(chanstring[next + 1..]));
      if 0 < |name| <= MAX_CHAN_LENGTH {
        assert chanlist + ([name] + tail) == (chanlist + [name]) + tail;
        chanlist := chanlist + [name];
      } else {
        assert [] + tail == tail;
      }
      p := next + 1;
      more := p < |chanstring|;
    }
    assert chanstring[p..] == "";
    NothingLeft();
    assert chanlist + [] == chanlist;
  }
}
