/**
 * listChapters (src/index.js:272-335) once the provider's decoded JSON is in
 * hand: every English chapter node of every range item becomes a chapter, in
 * provider order, numbered by the serial of the item that holds it.
 */
module Chapters {
  import opened Wrappers
  import opened Records
  import opened Sequences

  /** The `data` object of a chapter node; fields the mapping does not read are omitted. */
  datatype NodeData = NodeData(
    lang: Option<string>,
    dname: Option<string>,
    srcTitle: Option<string>,
    dateCreate: Option<int>,
    dateModify: Option<int>)

  datatype ChapterNode = ChapterNode(id: string, data: NodeData)

  /** One entry of `get_content_comicChapterRangeList.items`. */
  datatype RangeItem = RangeItem(serial: string, chapterNodes: seq<ChapterNode>)

  /**
   * `json.data`: either a collection whose length is 0, or the object that
   * holds the range list.
   */
  datatype RangeListData = EmptyCollection | RangeList(items: seq<RangeItem>)

  /** `toLowerCase` on one character, for the ASCII range. */
  function LowerChar(c: char): char
  {
    if 'A' <= c <= 'Z' then (c as int - 'A' as int + 'a' as int) as char else c
  }

  function AsciiLower(s: string): (r: string)
    ensures |r| == |s|
  {
    seq(|s|, i requires 0 <= i < |s| => LowerChar(s[i]))
  }

  /** The filter of src/index.js:305: the language code lower-cases to "en". */
  predicate IsEnglish(lang: Option<string>)
  {
    lang.Some? && AsciiLower(lang.value) == "en"
  }

  /** Exactly the four spellings of "en" pass the language filter. */
  lemma EnglishSpellings(code: string)
    ensures IsEnglish(Some(code)) <==> code in {"en", "En", "eN", "EN"}
  {
    if |code| == 2 {
      var low := AsciiLower(code);
      assert low == [LowerChar(code[0]), LowerChar(code[1])];
      assert LowerChar(code[0]) == 'e' <==> code[0] == 'e' || code[0] == 'E';
      assert LowerChar(code[1]) == 'n' <==> code[1] == 'n' || code[1] == 'N';
      assert code == [code[0], code[1]];
    }
  }

  /** Every node's language is present; src/index.js:305 throws on one that lacks it. */
  predicate LangsPresent(items: seq<RangeItem>)
  {
    forall i, j :: 0 <= i < |items| && 0 <= j < |items[i].chapterNodes| ==>
      items[i].chapterNodes[j].data.lang.Some?
  }

  /** The chapter a kept node becomes, numbered by the serial of its range item. */
  function ToChapterItem(serial: string, node: ChapterNode): ChapterListItem
  {
    ChapterListItem(
      number := serial,
      identifier := node.id,
      title := node.data.dname,
      description := None,
      group := None,
      variant := node.data.srcTitle,
      created := node.data.dateCreate,
      updated := node.data.dateModify,
      published := None)
  }

  /**
   * What the source promises of the chapter made from a node: numbered by its
   * range item's serial, the node's own id, names and dates, and no
   * description, group or publication date.
   */
  predicate MadeFrom(c: ChapterListItem, serial: string, node: ChapterNode)
  {
    c.number == serial && c.identifier == node.id &&
    c.title == node.data.dname && c.variant == node.data.srcTitle &&
    c.created == node.data.dateCreate && c.updated == node.data.dateModify &&
    c.description.None? && c.group.None? && c.published.None?
  }

  /** `filter` on the language followed by `map` to chapters, as one step. */
  function KeepEnglish(serial: string): ChapterNode -> Option<ChapterListItem>
  {
    (node: ChapterNode) => if IsEnglish(node.data.lang) then Some(ToChapterItem(serial, node)) else None
  }

  /** The chapters one range item contributes (`instances` in the source). */
  function GroupChapters(item: RangeItem): seq<ChapterListItem>
  {
    FilterMap(item.chapterNodes, KeepEnglish(item.serial))
  }

  /** The in-order concatenation of every range item's chapters. */
  function ChaptersOf(items: seq<RangeItem>): seq<ChapterListItem>
  {
    if |items| == 0 then []
    else ChaptersOf(items[..|items| - 1]) + GroupChapters(items[|items| - 1])
  }

  /**
   * The chapter list for a decoded response: empty when `data` is an empty
   * collection, otherwise the chapters of every range item, accumulated item
   * by item.
   */
  method ListChapters(data: RangeListData) returns (list: ChapterList)
    requires data.RangeList? ==> LangsPresent(data.items)
    ensures data.EmptyCollection? ==> list.chapters == []
    ensures data.RangeList? ==> list.chapters == ChaptersOf(data.items)
  {
    if data.EmptyCollection? {
      return ChapterList([]);
    }
    var items := data.items;
    var chapters: seq<ChapterListItem> := [];
    var i := 0;
    while i < |items|
      invariant 0 <= i <= |items|
      invariant chapters == ChaptersOf(items[..i])
    {
      var instances := GroupChapters(items[i]);
      assert items[..i + 1][..i] == items[..i];
      chapters := chapters + instances;
      i := i + 1;
    }
    assert items[..i] == items;
    list := ChapterList(chapters);
  }

  /** The number of nodes whose language passes the filter. */
  function CountEnglish(nodes: seq<ChapterNode>): nat
  {
    if |nodes| == 0 then 0
    else CountEnglish(nodes[..|nodes| - 1]) + (if IsEnglish(nodes[|nodes| - 1].data.lang) then 1 else 0)
  }

  function TotalEnglish(items: seq<RangeItem>): nat
  {
    if |items| == 0 then 0
    else TotalEnglish(items[..|items| - 1]) + CountEnglish(items[|items| - 1].chapterNodes)
  }

  lemma {:induction false} GroupCount(serial: string, nodes: seq<ChapterNode>)
    ensures |FilterMap(nodes, KeepEnglish(serial))| == CountEnglish(nodes)
  {
    if |nodes| > 0 {
      GroupCount(serial, nodes[..|nodes| - 1]);
    }
  }

  /** The list holds one chapter per English node of the response. */
  lemma {:induction false} ChapterCount(items: seq<RangeItem>)
    ensures |ChaptersOf(items)| == TotalEnglish(items)
  {
    if |items| > 0 {
      var last := items[|items| - 1];
      ChapterCount(items[..|items| - 1]);
      GroupCount(last.serial, last.chapterNodes);
    }
  }

  /** (item position, node position) of every English node, in provider order. */
  function Origins(items: seq<RangeItem>): (r: seq<(nat, nat)>)
  {
    if |items| == 0 then []
    else
      var last := items[|items| - 1];
      Origins(items[..|items| - 1]) + Tag(|items| - 1, KeptIndices(last.chapterNodes, KeepEnglish(last.serial)))
  }

  function Tag(i: nat, js: seq<nat>): (r: seq<(nat, nat)>)
  {
    seq(|js|, t requires 0 <= t < |js| => (i, js[t]))
  }

  /** Lexicographic order on positions: by range item, then by node. */
  predicate Before(p: (nat, nat), q: (nat, nat))
  {
    p.0 < q.0 || (p.0 == q.0 && p.1 < q.1)
  }

  predicate InProviderOrder(r: seq<(nat, nat)>)
  {
    forall k, l :: 0 <= k < l < |r| ==> Before(r[k], r[l])
  }

  /** Origins names real nodes, all of them English. */
  predicate ValidOrigins(items: seq<RangeItem>, r: seq<(nat, nat)>)
  {
    forall k :: 0 <= k < |r| ==>
      r[k].0 < |items| && r[k].1 < |items[r[k].0].chapterNodes| &&
      IsEnglish(items[r[k].0].chapterNodes[r[k].1].data.lang)
  }

  /** The k-th chapter is made from the node at Origins[k], an English node, numbered by its own item's serial. */
  lemma {:induction false} ChapterFromOrigin(items: seq<RangeItem>)
    ensures |ChaptersOf(items)| == |Origins(items)|
    ensures ValidOrigins(items, Origins(items))
    ensures forall k :: 0 <= k < |Origins(items)| ==>
      var (i, j) := Origins(items)[k];
      i < |items| && j < |items[i].chapterNodes| &&
      MadeFrom(ChaptersOf(items)[k], items[i].serial, items[i].chapterNodes[j])
  {
    if |items| > 0 {
      var n := |items| - 1;
      var init, last := items[..n], items[n];
      var f := KeepEnglish(last.serial);
      var js := KeptIndices(last.chapterNodes, f);
      ChapterFromOrigin(init);
      FilterMapOrigins(last.chapterNodes, f);
      var pre: seq<(nat, nat)>, tail: seq<(nat, nat)> := Origins(init), Tag(n, js);
      var cs, group := ChaptersOf(init), GroupChapters(last);
      assert Origins(items) == pre + tail;
      assert ChaptersOf(items) == cs + group;
      forall k | 0 <= k < |pre + tail|
        ensures (pre + tail)[k].0 < |items| && (pre + tail)[k].1 < |items[(pre + tail)[k].0].chapterNodes|
        ensures var (i, j) := (pre + tail)[k];
          IsEnglish(items[i].chapterNodes[j].data.lang) &&
          MadeFrom((cs + group)[k], items[i].serial, items[i].chapterNodes[j])
      {
        if k < |pre| {
          assert items[pre[k].0] == init[pre[k].0];
        } else {
          var t := k - |pre|;
          assert tail[t] == (n, js[t]);
          assert f(last.chapterNodes[js[t]]) == Some(group[t]);
        }
      }
    }
  }

  /** Chapters appear in provider order: by range item, then by node within the item. */
  lemma {:induction false} ChaptersInProviderOrder(items: seq<RangeItem>)
    ensures InProviderOrder(Origins(items))
    ensures forall k :: 0 <= k < |Origins(items)| ==> Origins(items)[k].0 < |items|
  {
    if |items| > 0 {
      var n := |items| - 1;
      var last := items[n];
      var js := KeptIndices(last.chapterNodes, KeepEnglish(last.serial));
      ChaptersInProviderOrder(items[..n]);
      FilterMapOrigins(last.chapterNodes, KeepEnglish(last.serial));
      TagInOrder(n, js);
      ConcatInOrder(Origins(items[..n]), Tag(n, js), n);
    }
  }

  /** The origins one range item contributes are in node order and all belong to that item. */
  lemma TagInOrder(n: nat, js: seq<nat>)
    requires StrictlyIncreasing(js)
    ensures InProviderOrder(Tag(n, js))
    ensures forall t :: 0 <= t < |Tag(n, js)| ==> Tag(n, js)[t].0 == n
  {
  }

  /** Origins of earlier items followed by those of a later item stay in provider order. */
  lemma ConcatInOrder(a: seq<(nat, nat)>, b: seq<(nat, nat)>, n: nat)
    requires InProviderOrder(a) && InProviderOrder(b)
    requires forall k :: 0 <= k < |a| ==> a[k].0 < n
    requires forall t :: 0 <= t < |b| ==> b[t].0 == n
    ensures InProviderOrder(a + b)
  {
  }

  /** No English node is lost: each one's position is among the origins. */
  lemma {:induction false} EveryEnglishNodeListed(items: seq<RangeItem>)
    ensures forall i, j ::
      0 <= i < |items| && 0 <= j < |items[i].chapterNodes| && IsEnglish(items[i].chapterNodes[j].data.lang)
      ==> (i, j) in Origins(items)
  {
    if |items| > 0 {
      var n := |items| - 1;
      var init, last := items[..n], items[n];
      var f := KeepEnglish(last.serial);
      var js := KeptIndices(last.chapterNodes, f);
      EveryEnglishNodeListed(init);
      FilterMapOrigins(last.chapterNodes, f);
      var pre: seq<(nat, nat)>, tail: seq<(nat, nat)> := Origins(init), Tag(n, js);
      assert Origins(items) == pre + tail;
      forall i, j | 0 <= i < |items| && 0 <= j < |items[i].chapterNodes| &&
        IsEnglish(items[i].chapterNodes[j].data.lang)
        ensures (i, j) in pre + tail
      {
        if i < n {
          assert items[i] == init[i];
          assert (i, j) in pre;
        } else {
          assert f(last.chapterNodes[j]).Some?;
          var t :| 0 <= t < |js| && js[t] == j;
          assert tail[t] == (i, j);
        }
      }
    }
  }
}
