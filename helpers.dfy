/** Rarity and history-export helpers: the bundle rarity (a `reduce` keeping the first
    item of highest rank), the text body of the history export, and the badge colour. */
module Helpers {
  import opened Wrappers
  import opened Constants
  import opened Text
  import opened Seqs

  /** `getRarityColor`: rarity badges use the default styling, so the colour is always empty. */
  function GetRarityColor(rarity: string): (color: string)
    ensures color == ""
  {
    ""
  }

  // ---------------------------------------------------------------------------
  // getHighestRarity

  /** The reducer: `current` replaces `prev` only when its rank is strictly greater. */
  function PickHigher(prev: LootItem, current: LootItem): (r: LootItem)
    ensures r == prev || r == current
    ensures RarityOrder(prev.rarity) <= RarityOrder(r.rarity)
    ensures RarityOrder(current.rarity) <= RarityOrder(r.rarity)
  {
    if RarityOrder(current.rarity) > RarityOrder(prev.rarity) then current else prev
  }

  /** `rest.reduce(PickHigher, acc)`, a left fold. */
  function ReduceHighest(acc: LootItem, rest: seq<LootItem>): (r: LootItem)
    ensures r == acc || r in rest
    ensures RarityOrder(acc.rarity) <= RarityOrder(r.rarity)
    ensures forall i :: 0 <= i < |rest| ==> RarityOrder(rest[i].rarity) <= RarityOrder(r.rarity)
    decreases |rest|
  {
    if rest == [] then acc else ReduceHighest(PickHigher(acc, rest[0]), rest[1..])
  }

  /** `getHighestRarity`: `common` for no items; otherwise the rarity of an item of
      highest rank (the reduce without initial value starts from the first item). */
  function GetHighestRarity(items: seq<LootItem>): (r: Rarity)
    ensures items == [] ==> r == Common
    ensures items != [] ==> exists i :: 0 <= i < |items| && items[i].rarity == r
    ensures forall i :: 0 <= i < |items| ==> RarityOrder(items[i].rarity) <= RarityOrder(r)
  {
    if items == [] then Common
    else
      var top := ReduceHighest(items[0], items[1..]);
      assert top != items[0] ==> exists i :: 1 <= i < |items| && items[i] == top by {
        if top != items[0] {
          var j :| 0 <= j < |items[1..]| && items[1..][j] == top;
          assert items[j + 1] == top;
        }
      }
      assert forall i :: 1 <= i < |items| ==> items[i] == items[1..][i - 1];
      top.rarity
  }

  /** The fold's answer in terms of the answer for `[acc] + rest` after one step. */
  lemma FirstMaximumStep(acc: LootItem, rest: seq<LootItem>, k': nat) returns (k: nat)
    requires rest != []
    requires k' <= |rest| - 1
    requires var all' := [PickHigher(acc, rest[0])] + rest[1..];
      forall j :: 0 <= j < k' ==> RarityOrder(all'[j].rarity) < RarityOrder(all'[k'].rarity)
    ensures k <= |rest|
    ensures ([PickHigher(acc, rest[0])] + rest[1..])[k'] == ([acc] + rest)[k]
    ensures forall j :: 0 <= j < k ==>
      RarityOrder(([acc] + rest)[j].rarity) < RarityOrder(([acc] + rest)[k].rarity)
  {
    var all := [acc] + rest;
    var all' := [PickHigher(acc, rest[0])] + rest[1..];
    if RarityOrder(rest[0].rarity) > RarityOrder(acc.rarity) {
      assert all' == rest;
      k := k' + 1;
      forall j | 0 <= j < k
        ensures RarityOrder(all[j].rarity) < RarityOrder(all[k].rarity)
      {
        if j > 0 {
          assert all[j] == all'[j - 1];
        }
      }
    } else if k' == 0 {
      k := 0;
    } else {
      k := k' + 1;
      assert all[k] == all'[k'];
      forall j | 0 <= j < k
        ensures RarityOrder(all[j].rarity) < RarityOrder(all[k].rarity)
      {
        if j == 0 {
          assert all[0] == all'[0];
        } else if j >= 2 {
          assert all[j] == all'[j - 1];
        }
      }
    }
  }

  /** Ties go to the first maximum: the fold returns the first element of `[acc] + rest`
      whose rank is the highest. */
  lemma {:induction false} ReduceReturnsFirstMaximum(acc: LootItem, rest: seq<LootItem>) returns (k: nat)
    ensures k <= |rest|
    ensures ReduceHighest(acc, rest) == ([acc] + rest)[k]
    ensures forall j :: 0 <= j < k ==>
      RarityOrder(([acc] + rest)[j].rarity) < RarityOrder(([acc] + rest)[k].rarity)
    decreases |rest|
  {
    if rest == [] {
      k := 0;
    } else {
      var k' := ReduceReturnsFirstMaximum(PickHigher(acc, rest[0]), rest[1..]);
      k := FirstMaximumStep(acc, rest, k');
    }
  }

  /** For a non-empty bundle, the rarity returned is that of the FIRST item of highest rank. */
  lemma HighestRarityIsFirstMaximum(items: seq<LootItem>) returns (k: nat)
    requires items != []
    ensures k < |items| && GetHighestRarity(items) == items[k].rarity
    ensures forall j :: 0 <= j < k ==> RarityOrder(items[j].rarity) < RarityOrder(items[k].rarity)
    ensures forall j :: 0 <= j < |items| ==> RarityOrder(items[j].rarity) <= RarityOrder(items[k].rarity)
  {
    k := ReduceReturnsFirstMaximum(items[0], items[1..]);
    assert [items[0]] + items[1..] == items;
  }

  // ---------------------------------------------------------------------------
  // the text body of downloadHistoryTxt

  /** The two banner lines and the blank line that open the export. */
  const HistoryHeader: string :=
    "\U{1F4DC} CLAN LOOT RAFFLE HISTORY \U{1F4DC}\n================================\n\n"

  /** `CLASSES[role]?.label || "Member"`. */
  function RoleLabel(role: ClassRole): (caption: string)
    ensures caption == ClassLabel(role)
    ensures role == Unknown ==> caption == "Member"
  {
    var entry := ClassLabel(role);
    if entry != "" then entry else "Member"
  }

  /** The pieces of one export line: `[date time] name (label) won Nx itemName` and a newline. */
  function LinePieces(h: HistoryItem): seq<string>
  {
    ["[", h.displayDate, " ", h.displayTime, "] ", h.winnerName, " (",
     RoleLabel(h.winnerRole), ") won ", IntToString(h.quantityWon), "x ", h.itemName, "\n"]
  }

  /** One line of the export, opening with the bracketed date and ending in a newline. */
  function HistoryLine(h: HistoryItem): (line: string)
    ensures |line| > 0 && line[0] == '[' && line[|line| - 1] == '\n'
  {
    ConcatAllStartsWithFirst(LinePieces(h));
    ConcatAll(LinePieces(h))
  }

  /** The concatenation of a list of strings. */
  function ConcatAll(ss: seq<string>): string
  {
    if ss == [] then "" else ConcatAll(ss[..|ss| - 1]) + ss[|ss| - 1]
  }

  /** A concatenation starts with its first piece. */
  lemma {:induction false} ConcatAllStartsWithFirst(ss: seq<string>)
    requires ss != []
    ensures |ss[0]| <= |ConcatAll(ss)| && ConcatAll(ss)[..|ss[0]|] == ss[0]
  {
    if |ss| > 1 {
      ConcatAllStartsWithFirst(ss[..|ss| - 1]);
    }
  }

  /** The lines of the records, in list order. */
  function HistoryBody(hs: seq<HistoryItem>): string
  {
    FlatMap(hs, HistoryLine)
  }

  /** The export content: nothing at all for an empty history (the export returns early). */
  function HistoryText(hs: seq<HistoryItem>): (content: Option<string>)
    ensures content.None? <==> hs == []
    ensures content.Some? ==>
      |HistoryHeader| <= |content.value| && content.value[..|HistoryHeader|] == HistoryHeader
  {
    if hs == [] then None else Some(HistoryHeader + HistoryBody(hs))
  }

  /** The `forEach` loop of `downloadHistoryTxt` that builds `content` by `+=`. */
  method BuildHistoryText(history: seq<HistoryItem>) returns (content: Option<string>)
    ensures content == HistoryText(history)
  {
    if |history| == 0 {
      return None;
    }
    var text := HistoryHeader;
    for i := 0 to |history|
      invariant text == HistoryHeader + HistoryBody(history[..i])
    {
      var line := HistoryLine(history[i]);
      ghost var done := history[..i + 1];
      assert done[..i] == history[..i] && done[i] == history[i];
      assert HistoryBody(done) == HistoryBody(history[..i]) + line;
      text := text + line;
    }
    assert history[..|history|] == history;
    return Some(text);
  }

  /** The body of a concatenation is the concatenation of the bodies. */
  lemma HistoryBodyAppend(a: seq<HistoryItem>, b: seq<HistoryItem>)
    ensures HistoryBody(a + b) == HistoryBody(a) + HistoryBody(b)
  {
    FlatMapAppend(a, b, HistoryLine);
  }

  /** The first record's line comes first, then the lines of the others. */
  lemma HistoryBodyCons(h: HistoryItem, rest: seq<HistoryItem>)
    ensures HistoryBody([h] + rest) == HistoryLine(h) + HistoryBody(rest)
  {
    HistoryBodyAppend([h], rest);
    assert HistoryBody([h]) == HistoryLine(h) by {
      assert [h][..0] == [];
      assert FlatMap([h], HistoryLine) == FlatMap([h][..0], HistoryLine) + HistoryLine([h][0]);
    }
  }

  /** The number of occurrences of `c` in `s`. */
  function CountChar(s: string, c: char): nat
  {
    if s == [] then 0 else (if s[0] == c then 1 else 0) + CountChar(s[1..], c)
  }

  lemma {:induction false} CountCharAppend(a: string, b: string, c: char)
    ensures CountChar(a + b, c) == CountChar(a, c) + CountChar(b, c)
  {
    if a == [] {
      assert a + b == b;
    } else {
      assert (a + b)[1..] == a[1..] + b;
      CountCharAppend(a[1..], b, c);
    }
  }

  lemma {:induction false} CountCharAbsent(s: string, c: char)
    requires forall k :: 0 <= k < |s| ==> s[k] != c
    ensures CountChar(s, c) == 0
  {
    if s != [] {
      CountCharAbsent(s[1..], c);
    }
  }

  /** A record's text fields without line breaks. */
  predicate SingleLine(h: HistoryItem)
  {
    && '\n' !in h.displayDate && '\n' !in h.displayTime
    && '\n' !in h.winnerName && '\n' !in h.itemName
  }

  /** A concatenation of strings none of which holds `c` does not hold `c`. */
  lemma {:induction false} CountCharConcatAbsent(ss: seq<string>, c: char)
    requires forall i, k :: 0 <= i < |ss| && 0 <= k < |ss[i]| ==> ss[i][k] != c
    ensures CountChar(ConcatAll(ss), c) == 0
    decreases |ss|
  {
    if ss != [] {
      CountCharConcatAbsent(ss[..|ss| - 1], c);
      CountCharAbsent(ss[|ss| - 1], c);
      CountCharAppend(ConcatAll(ss[..|ss| - 1]), ss[|ss| - 1], c);
    }
  }

  /** The decimal text of a number holds no line break. */
  lemma IntTextOneLine(n: int)
    ensures forall k :: 0 <= k < |IntToString(n)| ==> IntToString(n)[k] != '\n'
  {
    var q := IntToString(n);
    if n < 0 {
      assert forall k :: 1 <= k < |q| ==> q[k] == NatToDecimal(-n)[k - 1];
    }
  }

  /** All pieces of a line but the final newline are free of line breaks. */
  lemma LinePiecesFront(h: HistoryItem)
    requires SingleLine(h)
    ensures var pieces := LinePieces(h);
      forall i, k :: 0 <= i < |pieces| - 1 && 0 <= k < |pieces[i]| ==> pieces[i][k] != '\n'
  {
    IntTextOneLine(h.quantityWon);
  }

  /** Each record whose fields hold no line break gives exactly one line. */
  lemma HistoryLineIsOneLine(h: HistoryItem)
    requires SingleLine(h)
    ensures CountChar(HistoryLine(h), '\n') == 1
  {
    var pieces := LinePieces(h);
    var front := pieces[..|pieces| - 1];
    LinePiecesFront(h);
    assert forall i :: 0 <= i < |front| ==> front[i] == pieces[i];
    CountCharConcatAbsent(front, '\n');
    CountCharAppend(ConcatAll(front), "\n", '\n');
  }

  /** The body has exactly one line per record when no record field holds a line break. */
  lemma {:induction false} HistoryBodyLineCount(hs: seq<HistoryItem>)
    requires forall i :: 0 <= i < |hs| ==> SingleLine(hs[i])
    ensures CountChar(HistoryBody(hs), '\n') == |hs|
    decreases |hs|
  {
    if hs != [] {
      HistoryBodyLineCount(hs[..|hs| - 1]);
      HistoryLineIsOneLine(hs[|hs| - 1]);
      CountCharAppend(HistoryBody(hs[..|hs| - 1]), HistoryLine(hs[|hs| - 1]), '\n');
    }
  }
}
