/** The history store: conversation turns and the trimming of a history to a token budget. */
module History {
  import opened Tokens

  datatype Role = System | User | Assistant

  /** One message of the conversation. */
  datatype Turn = Turn(role: Role, content: string)

  /** The budget `trim_history` uses when its caller gives none. */
  const DefaultMaxTokens: int := 3000

  /** Estimated token cost of one turn's content. */
  function Cost(m: Turn): nat {
    ApproxTokenCount(m.content)
  }

  /** Summed cost of the turns `ms[lo..hi]`, peeled from the newest end as the scan does. */
  function CostBetween(ms: seq<Turn>, lo: nat, hi: nat): nat
    requires lo <= hi <= |ms|
    decreases hi - lo
  {
    if lo == hi then 0 else CostBetween(ms, lo, hi - 1) + Cost(ms[hi - 1])
  }

  /** The same sum, peeled from the oldest end. */
  lemma {:induction false} CostBetweenFront(ms: seq<Turn>, lo: nat, hi: nat)
    requires lo < hi <= |ms|
    ensures CostBetween(ms, lo, hi) == Cost(ms[lo]) + CostBetween(ms, lo + 1, hi)
    decreases hi - lo
  {
    if lo + 1 < hi {
      CostBetweenFront(ms, lo, hi - 1);
    }
  }

  /** Reaching further back never makes a run of turns cheaper: each turn costs at least one. */
  lemma {:induction false} CostBetweenGrows(ms: seq<Turn>, lo': nat, lo: nat, hi: nat)
    requires lo' <= lo <= hi <= |ms|
    ensures CostBetween(ms, lo', hi) >= CostBetween(ms, lo, hi) + (lo - lo')
    decreases lo - lo'
  {
    if lo' < lo {
      CostBetweenGrows(ms, lo' + 1, lo, hi);
      CostBetweenFront(ms, lo', hi);
    }
  }

  /** Runs of equal turns cost the same, wherever they sit. */
  lemma {:induction false} CostBetweenShift(a: seq<Turn>, alo: nat, b: seq<Turn>, blo: nat, n: nat)
    requires alo + n <= |a| && blo + n <= |b|
    requires a[alo..alo + n] == b[blo..blo + n]
    ensures CostBetween(a, alo, alo + n) == CostBetween(b, blo, blo + n)
    decreases n
  {
    if n > 0 {
      assert a[alo..alo + n - 1] == a[alo..alo + n][..n - 1];
      assert b[blo..blo + n - 1] == b[blo..blo + n][..n - 1];
      CostBetweenShift(a, alo, b, blo, n - 1);
      assert a[alo + n - 1] == a[alo..alo + n][n - 1];
      assert b[blo + n - 1] == b[blo..blo + n][n - 1];
    }
  }

  /** Whether the history opens with a system turn, the anchor that trimming never drops. */
  predicate HasSystemHead(h: seq<Turn>) {
    |h| > 0 && h[0].role == System
  }

  /** The part of the history trimming always keeps: the leading system turn, if any. */
  function Head(h: seq<Turn>): seq<Turn> {
    if HasSystemHead(h) then [h[0]] else []
  }

  /** The running total the scan starts from: the system turn's cost, or the cost of the
      empty text (one) when there is no system turn. */
  function Base(h: seq<Turn>): nat {
    if HasSystemHead(h) then Cost(h[0]) else ApproxTokenCount("")
  }

  /** The backwards scan of `trim_history` over `h[floor..end]`, newest first, carrying the
      running total `total`; `keptAny` records whether a turn has been kept already, and until
      one has, the turn in hand is kept whatever it costs. The result is the index where the
      kept run `h[lo..end]` starts: the scan stops at the first turn that does not fit. */
  function ScanStart(h: seq<Turn>, floor: nat, end: nat, total: int, maxTokens: int, keptAny: bool): (lo: nat)
    requires floor <= end <= |h|
    ensures floor <= lo <= end
    // the first turn considered is always kept
    ensures !keptAny && floor < end ==> lo < end
    decreases end
  {
    if end == floor then end
    else
      var t := Cost(h[end - 1]);
      if total + t > maxTokens && keptAny then end
      else ScanStart(h, floor, end - 1, total + t, maxTokens, true)
  }

  /** Every turn the scan keeps after the first one fitted under the budget. */
  lemma {:induction false} ScanWithinBudget(h: seq<Turn>, floor: nat, end: nat, total: int, maxTokens: int, keptAny: bool)
    requires floor <= end <= |h|
    ensures var lo := ScanStart(h, floor, end, total, maxTokens, keptAny);
            lo < end - (if keptAny then 0 else 1) ==> total + CostBetween(h, lo, end) <= maxTokens
    decreases end
  {
    if end > floor {
      var t := Cost(h[end - 1]);
      if !(total + t > maxTokens && keptAny) {
        ScanWithinBudget(h, floor, end - 1, total + t, maxTokens, true);
      }
    }
  }

  /** Once a turn is kept, the scan stops short of `floor` only at a turn that would break the budget. */
  lemma {:induction false} ScanMaximal(h: seq<Turn>, floor: nat, end: nat, total: int, maxTokens: int, keptAny: bool)
    requires floor <= end <= |h|
    ensures var lo := ScanStart(h, floor, end, total, maxTokens, keptAny);
            floor < lo && (keptAny || lo < end) ==> total + CostBetween(h, lo - 1, end) > maxTokens
    decreases end
  {
    if end > floor {
      var t := Cost(h[end - 1]);
      if !(total + t > maxTokens && keptAny) {
        ScanMaximal(h, floor, end - 1, total + t, maxTokens, true);
      }
    }
  }

  /** Two histories whose turns cost the same position by position are scanned alike. */
  lemma {:induction false} ScanSeesOnlyCosts(a: seq<Turn>, b: seq<Turn>, floor: nat, end: nat, total: int, maxTokens: int, keptAny: bool)
    requires floor <= end <= |a| == |b|
    requires forall i :: floor <= i < end ==> Cost(a[i]) == Cost(b[i])
    ensures ScanStart(a, floor, end, total, maxTokens, keptAny) == ScanStart(b, floor, end, total, maxTokens, keptAny)
    decreases end
  {
    if end > floor {
      ScanSeesOnlyCosts(a, b, floor, end - 1, total + Cost(a[end - 1]), maxTokens, true);
    }
  }

  /** Where the kept run of newest turns starts in `h`. */
  function TrimStart(h: seq<Turn>, maxTokens: int): nat
    requires |h| > 0
  {
    ScanStart(h, |Head(h)|, |h|, Base(h), maxTokens, false)
  }

  /** `trim_history`: the leading system turn, followed by the newest turns the scan keeps. */
  function Trim(h: seq<Turn>, maxTokens: int): (r: seq<Turn>)
    // an empty history, or one that is only a system turn, comes back unchanged
    ensures |h| == |Head(h)| ==> r == h
    // the leading system turn survives, whatever the budget
    ensures |Head(h)| <= |r| <= |h|
    ensures r[..|Head(h)|] == Head(h)
    // after it, a contiguous run of the newest turns, in their original order
    ensures forall i :: |Head(h)| <= i < |r| ==> r[i] == h[|h| - |r| + i]
    // the newest turn is kept even if it alone exceeds the budget
    ensures |h| > |Head(h)| ==> |r| > |Head(h)|
  {
    if |h| == 0 then h else Head(h) + h[TrimStart(h, maxTokens)..]
  }

  /** How many turns after the system turn trimming keeps: the distance from where the scan
      stopped to the newest end. */
  function KeptCount(h: seq<Turn>, maxTokens: int): nat {
    if |h| == 0 then 0 else |h| - TrimStart(h, maxTokens)
  }

  /** The trimmed history is the system turn and the kept count of turns. */
  lemma TrimLength(h: seq<Turn>, maxTokens: int)
    ensures |Trim(h, maxTokens)| == |Head(h)| + KeptCount(h, maxTokens)
  {
  }

  /** Trimming edits nothing and invents nothing: every turn it returns is a turn of the history. */
  lemma TrimDrawsFromHistory(h: seq<Turn>, maxTokens: int)
    ensures forall t :: t in Trim(h, maxTokens) ==> t in h
  {
    if |h| > 0 {
      var lo := TrimStart(h, maxTokens);
      assert Trim(h, maxTokens) == Head(h) + h[lo..];
      assert h == h[..lo] + h[lo..];
      assert forall t :: t in Head(h) ==> t == h[0];
    }
  }

  /** The newest turn of a history with turns besides the system turn is the newest turn kept. */
  lemma TrimKeepsNewest(h: seq<Turn>, maxTokens: int)
    requires |h| > |Head(h)|
    ensures |Trim(h, maxTokens)| > 0 && Trim(h, maxTokens)[|Trim(h, maxTokens)| - 1] == h[|h| - 1]
  {
    var r := Trim(h, maxTokens);
    assert r[|r| - 1] == h[|h| - |r| + |r| - 1];
  }

  /** Trimming right after appending a turn keeps that turn last, and keeps the history's
      system turn first. */
  lemma TrimAfterAppend(h: seq<Turn>, m: Turn, maxTokens: int)
    ensures var r := Trim(h + [m], maxTokens);
            |r| >= |Head(h)| + 1 && r[|r| - 1] == m && (HasSystemHead(h) ==> r[0] == h[0])
  {
    var h' := h + [m];
    if |h| == 0 {
      assert h' == [m];
    } else {
      assert h'[0] == h[0] && Head(h') == Head(h);
      TrimKeepsNewest(h', maxTokens);
    }
    if HasSystemHead(h) {
      assert HasSystemHead(h') && h'[0] == h[0];
      assert Trim(h', maxTokens)[..1] == [h[0]];
    }
  }

  /** With two or more turns kept, the base cost plus the kept turns' costs fit the budget. */
  lemma TrimWithinBudget(h: seq<Turn>, maxTokens: int)
    ensures var k := KeptCount(h, maxTokens);
            k >= 2 ==> Base(h) + CostBetween(h, |h| - k, |h|) <= maxTokens
  {
    if |h| > 0 {
      ScanWithinBudget(h, |Head(h)|, |h|, Base(h), maxTokens, false);
    }
  }

  /** When a turn was dropped, adding the next older turn would have exceeded the budget. */
  lemma TrimMaximal(h: seq<Turn>, maxTokens: int)
    ensures var k := KeptCount(h, maxTokens);
            |Head(h)| + k < |h| ==> Base(h) + CostBetween(h, |h| - k - 1, |h|) > maxTokens
  {
    if |h| > 0 {
      ScanMaximal(h, |Head(h)|, |h|, Base(h), maxTokens, false);
    }
  }

  /** Every run of two or more newest turns that trimming keeps fits the budget with the base. */
  lemma KeptRunsFit(h: seq<Turn>, maxTokens: int, j: nat)
    requires 2 <= j <= KeptCount(h, maxTokens) && j <= |h|
    ensures Base(h) + CostBetween(h, |h| - j, |h|) <= maxTokens
  {
    var k := KeptCount(h, maxTokens);
    TrimWithinBudget(h, maxTokens);
    assert Base(h) + CostBetween(h, |h| - k, |h|) <= maxTokens;
    CostBetweenGrows(h, |h| - k, |h| - j, |h|);
  }

  /** Every longer run of newest turns breaks the budget. */
  lemma LongerRunsDoNotFit(h: seq<Turn>, maxTokens: int, j: nat)
    requires KeptCount(h, maxTokens) < j <= |h| - |Head(h)|
    ensures Base(h) + CostBetween(h, |h| - j, |h|) > maxTokens
  {
    var k := KeptCount(h, maxTokens);
    TrimLength(h, maxTokens);
    TrimMaximal(h, maxTokens);
    assert Base(h) + CostBetween(h, |h| - k - 1, |h|) > maxTokens;
    CostBetweenGrows(h, |h| - j, |h| - k - 1, |h|);
  }

  /** An independent reading of what trimming keeps: among runs of two or more newest turns,
      exactly those that fit the budget together with the base are kept. */
  lemma KeptRunIsLongestThatFits(h: seq<Turn>, maxTokens: int, j: nat)
    requires 2 <= j <= |h| - |Head(h)|
    ensures Base(h) + CostBetween(h, |h| - j, |h|) <= maxTokens <==> j <= KeptCount(h, maxTokens)
  {
    if j <= KeptCount(h, maxTokens) {
      KeptRunsFit(h, maxTokens, j);
    } else {
      LongerRunsDoNotFit(h, maxTokens, j);
    }
  }

  /** A history whose turns all fit the budget (or that holds at most one turn besides the
      system turn) is left as it is. */
  lemma TrimKeepsWhatFits(h: seq<Turn>, maxTokens: int)
    requires |h| - |Head(h)| <= 1 || Base(h) + CostBetween(h, |Head(h)|, |h|) <= maxTokens
    ensures Trim(h, maxTokens) == h
  {
    var r := Trim(h, maxTokens);
    var k := KeptCount(h, maxTokens);
    TrimLength(h, maxTokens);
    if |Head(h)| + k < |h| {
      TrimMaximal(h, maxTokens);
      CostBetweenGrows(h, |Head(h)|, |h| - k - 1, |h|);
    }
    assert |r| == |h|;
    assert forall i :: 0 <= i < |Head(h)| ==> r[i] == h[i] by {
      assert r[..|Head(h)|] == Head(h);
    }
  }

  /** The kept run costs the same in the trimmed history as it did in the original. */
  lemma KeptRunCost(h: seq<Turn>, maxTokens: int)
    ensures var r := Trim(h, maxTokens);
            var k := KeptCount(h, maxTokens);
            CostBetween(r, |r| - k, |r|) == CostBetween(h, |h| - k, |h|)
  {
    var r := Trim(h, maxTokens);
    var k := KeptCount(h, maxTokens);
    TrimLength(h, maxTokens);
    if |h| > 0 {
      var tail := h[TrimStart(h, maxTokens)..];
      assert r == Head(h) + tail;
      assert r[|Head(h)|..] == tail;
    }
    CostBetweenShift(r, |r| - k, h, |h| - k, k);
  }

  /** Trimming twice with the same budget is the same as trimming once. */
  lemma TrimIdempotent(h: seq<Turn>, maxTokens: int)
    ensures Trim(Trim(h, maxTokens), maxTokens) == Trim(h, maxTokens)
  {
    var r := Trim(h, maxTokens);
    var k := KeptCount(h, maxTokens);
    TrimLength(h, maxTokens);
    if k >= 2 {
      TrimWithinBudget(h, maxTokens);
      KeptRunCost(h, maxTokens);
      if HasSystemHead(h) || !HasSystemHead(r) {
        assert Head(r) == Head(h) && Base(r) == Base(h);
      } else {
        // a non-leading system turn now heads the history: it becomes the base
        assert |r| == k && r[0] == h[|h| - k];
        CostBetweenFront(r, 0, |r|);
      }
    }
    TrimKeepsWhatFits(r, maxTokens);
  }

  /** The roles of the turns after the first play no part in how many are kept: a non-leading
      system turn is trimmed like any other. */
  lemma TrimIgnoresLaterRoles(h: seq<Turn>, h': seq<Turn>, maxTokens: int)
    requires |h| == |h'| && |h| > 0 && h'[0] == h[0]
    requires forall i :: 0 < i < |h| ==> h'[i].content == h[i].content
    ensures |Trim(h', maxTokens)| == |Trim(h, maxTokens)|
  {
    ScanSeesOnlyCosts(h, h', |Head(h)|, |h|, Base(h), maxTokens, false);
  }

  /** The source's `kept.reverse()`. */
  function Reverse<T>(s: seq<T>): (r: seq<T>)
    ensures |r| == |s|
    ensures forall i :: 0 <= i < |s| ==> r[i] == s[|s| - 1 - i]
  {
    if |s| == 0 then [] else Reverse(s[1..]) + [s[0]]
  }

  /** Scanning a slice that starts at `off` is scanning the whole history from `off` on. */
  lemma {:induction false} ScanOfSlice(h: seq<Turn>, off: nat, end: nat, total: int, maxTokens: int, keptAny: bool)
    requires off <= end <= |h|
    ensures ScanStart(h[off..], 0, end - off, total, maxTokens, keptAny) + off
            == ScanStart(h, off, end, total, maxTokens, keptAny)
    decreases end
  {
    if end > off {
      assert h[off..][end - off - 1] == h[end - 1];
      ScanOfSlice(h, off, end - 1, total + Cost(h[end - 1]), maxTokens, true);
    }
  }

  /** The loop of `trim_history`: walk `msgs` newest first from the running total `total`,
      appending each kept turn to a list, and stop at the first turn that does not fit once
      something is kept. The list comes back newest first. */
  method CollectNewest(msgs: seq<Turn>, total: int, maxTokens: int) returns (kept: seq<Turn>)
    ensures |kept| == |msgs| - ScanStart(msgs, 0, |msgs|, total, maxTokens, false)
    ensures forall j :: 0 <= j < |kept| ==> kept[j] == msgs[|msgs| - 1 - j]
  {
    kept := [];
    var running := total;
    var i := |msgs|;
    while i > 0
      invariant 0 <= i <= |msgs|
      invariant |kept| == |msgs| - i
      invariant forall j :: 0 <= j < |kept| ==> kept[j] == msgs[|msgs| - 1 - j]
      invariant ScanStart(msgs, 0, |msgs|, total, maxTokens, false)
                == ScanStart(msgs, 0, i, running, maxTokens, |kept| > 0)
    {
      var m := msgs[i - 1];
      var t := ApproxTokenCount(m.content);
      if running + t > maxTokens && |kept| > 0 {
        break;
      }
      kept := kept + [m];
      running := running + t;
      i := i - 1;
    }
  }

  /** `trim_history` as the source writes it: split off the system turn, collect the kept
      turns newest first, then reverse them and put the system turn in front. */
  method TrimHistory(h: seq<Turn>, maxTokens: int) returns (r: seq<Turn>)
    ensures r == Trim(h, maxTokens)
  {
    if |h| == 0 {
      return h;
    }
    var sys := HasSystemHead(h);
    var msgs := if sys then h[1..] else h;
    var total := if sys then ApproxTokenCount(h[0].content) else ApproxTokenCount("");
    var kept := CollectNewest(msgs, total, maxTokens);
    var ordered := Reverse(kept);
    ghost var off := |Head(h)|;
    assert msgs == h[off..];
    ScanOfSlice(h, off, |h|, total, maxTokens, false);
    assert ordered == h[TrimStart(h, maxTokens)..];
    r := (if sys then [h[0]] else []) + ordered;
  }
}
