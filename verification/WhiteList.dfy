/**
 The white list of url patterns and its text form: the patterns, each followed by
 a comma, in any order.
 */
module WhiteList {
  import opened Seqs
  import opened VerifyTypes

  const SPLITOR: char := ','

  // ---------- the pieces of a text ----------

  /** `src[i..j]` is a maximal comma-free stretch. */
  predicate IsPiece(src: string, i: int, j: int) {
    && 0 <= i <= j <= |src|
    && (i == 0 || src[i - 1] == SPLITOR)
    && (j == |src| || src[j] == SPLITOR)
    && SPLITOR !in src[i..j]
  }

  /** The non-empty pieces. */
  ghost function Pieces(src: string): set<string> {
    set i, j | 0 <= i < j <= |src| && IsPiece(src, i, j) :: src[i..j]
  }

  /** `std::string::find` of the comma; `None` is `npos`. */
  function Find(src: string): (pos: Option<nat>)
    ensures pos.None? ==> SPLITOR !in src
    ensures pos.Some? ==> pos.value < |src| && src[pos.value] == SPLITOR && SPLITOR !in src[..pos.value]
  {
    if src == [] then None
    else if src[0] == SPLITOR then Some(0)
    else
      match Find(src[1..])
      case None => None
      case Some(pos) => Some(pos + 1)
  }

  lemma {:induction false} PieceIsIn(src: string, i: int, j: int)
    requires IsPiece(src, i, j) && i < j
    ensures src[i..j] in Pieces(src)
  {
  }

  lemma {:induction false} OnePiece(src: string)
    requires SPLITOR !in src
    ensures Pieces(src) == if src == "" then {} else {src}
  {
    forall p ensures p in Pieces(src) <==> p == src != "" {
      if p in Pieces(src) {
        var i, j :| 0 <= i < j <= |src| && IsPiece(src, i, j) && src[i..j] == p;
        assert src[0..|src|] == src;
      }
      if p == src != "" {
        assert src[0..|src|] == src;
        PieceIsIn(src, 0, |src|);
      }
    }
  }

  lemma {:induction false} PieceOfPart(front: string, back: string, i: int, j: int)
    requires IsPiece(front + [SPLITOR] + back, i, j) && i < j
    ensures (front + [SPLITOR] + back)[i..j] in Pieces(front) + Pieces(back)
  {
    var src, n := front + [SPLITOR] + back, |front|;
    var p := src[i..j];
    assert src[n] == SPLITOR;
    assert forall k :: i <= k < j ==> src[k] == p[k - i] && src[k] in p;
    if j <= n {
      InFront(front, back, i, j);
    } else {
      InBack(front, back, i - n - 1, j - n - 1);
    }
  }

  lemma {:induction false} InFront(front: string, back: string, i: int, j: int)
    requires IsPiece(front + [SPLITOR] + back, i, j) && i < j <= |front|
    ensures (front + [SPLITOR] + back)[i..j] in Pieces(front)
  {
    var src := front + [SPLITOR] + back;
    assert src[i..j] == front[i..j];
    assert i == 0 || src[i - 1] == front[i - 1];
    PieceIsIn(front, i, j);
  }

  /** The piece of the back that starts at `i`. */
  lemma {:induction false} InBack(front: string, back: string, i: int, j: int)
    requires 0 <= i < j <= |back| && IsPiece(front + [SPLITOR] + back, |front| + 1 + i, |front| + 1 + j)
    ensures (front + [SPLITOR] + back)[|front| + 1 + i..|front| + 1 + j] in Pieces(back)
  {
    var src, m := front + [SPLITOR] + back, |front| + 1;
    assert src[m + i..m + j] == back[i..j];
    assert i == 0 || src[m + i - 1] == back[i - 1];
    PieceIsIn(back, i, j);
  }

  lemma {:induction false} FrontPieces(front: string, back: string, p: string)
    requires p in Pieces(front)
    ensures p in Pieces(front + [SPLITOR] + back)
  {
    var i, j :| 0 <= i < j <= |front| && IsPiece(front, i, j) && front[i..j] == p;
    assert (front + [SPLITOR] + back)[i..j] == front[i..j];
    PieceIsIn(front + [SPLITOR] + back, i, j);
  }

  lemma {:induction false} BackPieces(front: string, back: string, p: string)
    requires p in Pieces(back)
    ensures p in Pieces(front + [SPLITOR] + back)
  {
    var n := |front| + 1;
    var i, j :| 0 <= i < j <= |back| && IsPiece(back, i, j) && back[i..j] == p;
    assert (front + [SPLITOR] + back)[n + i..n + j] == back[i..j];
    PieceIsIn(front + [SPLITOR] + back, n + i, n + j);
  }

  /** Cutting at a comma divides the pieces. */
  lemma {:induction false} CutPieces(front: string, back: string)
    ensures Pieces(front + [SPLITOR] + back) == Pieces(front) + Pieces(back)
  {
    var src := front + [SPLITOR] + back;
    forall p | p in Pieces(src) ensures p in Pieces(front) + Pieces(back) {
      var i, j :| 0 <= i < j <= |src| && IsPiece(src, i, j) && src[i..j] == p;
      PieceOfPart(front, back, i, j);
    }
    forall p | p in Pieces(front) ensures p in Pieces(src) { FrontPieces(front, back, p); }
    forall p | p in Pieces(back) ensures p in Pieces(src) { BackPieces(front, back, p); }
  }

  // ---------- the text of a list ----------

  function TextOf(order: seq<string>): string {
    if order == [] then "" else TextOf(order[..|order| - 1]) + order[|order| - 1] + [SPLITOR]
  }

  lemma {:induction false} TextPieces(order: seq<string>)
    requires forall p :: p in order ==> SPLITOR !in p
    ensures Pieces(TextOf(order)) == Elements(order) - {""}
  {
    if order == [] {
      OnePiece("");
    } else {
      var n := |order| - 1;
      var before, last := order[..n], order[n];
      assert order == before + [last];
      TextPieces(before);
      CommaEnds(before);
      LastPiece(TextOf(before), last);
      OnePiece(last);
      assert Elements(order) == Elements(before) + {last};
    }
  }

  /** A text of a list is empty or ends with a comma. */
  lemma {:induction false} CommaEnds(order: seq<string>)
    ensures TextOf(order) == "" || TextOf(order)[|TextOf(order)| - 1] == SPLITOR
  {
  }

  lemma {:induction false} LastPiece(text: string, last: string)
    requires text == "" || text[|text| - 1] == SPLITOR
    requires SPLITOR !in last
    ensures Pieces(text + last + [SPLITOR]) == Pieces(text) + Pieces(last)
  {
    OnePiece("");
    CutPieces(text + last, "");
    assert text + last + [SPLITOR] + "" == text + last + [SPLITOR];
    if text != "" {
      var front := text[..|text| - 1];
      assert text == front + [SPLITOR] + "";
      CutPieces(front, "");
      CutPieces(front, last);
      assert text + last == front + [SPLITOR] + last;
    } else {
      assert text + last == last;
    }
    OnePiece(last);
  }

  // ---------- the class ----------

  class WhiteListConfigMgr {
    var whiteListSet: set<string>
    /** The stored preference: whether it can be reached, and its text. */
    var preferences: bool
    var stored: string

    constructor (reachable: bool, text: string)
      ensures preferences == reachable && stored == text
      ensures whiteListSet == if reachable then Pieces(text) else {}
    {
      whiteListSet, preferences, stored := {}, reachable, text;
      new;
      LoadDynamic();
    }

    method LoadDynamic()
      modifies this`whiteListSet
      ensures whiteListSet == if preferences then Pieces(stored) else old(whiteListSet)
    {
      if !preferences {
        return;
      }
      Split(stored);
    }

    method Split(text: string)
      modifies this`whiteListSet
      ensures whiteListSet == Pieces(text)
    {
      var src := text;
      whiteListSet := {};
      var pos := Find(src);
      while pos.Some?
        invariant pos == Find(src)
        invariant Pieces(text) == whiteListSet + Pieces(src)
        decreases |src|
      {
        var token := src[..pos.value];
        ghost var rest := src[pos.value + 1..];
        assert src == token + [SPLITOR] + rest;
        CutPieces(token, rest);
        OnePiece(token);
        if token != "" {
          whiteListSet := whiteListSet + {token};
        }
        src := src[pos.value + 1..];
        pos := Find(src);
      }
      OnePiece(src);
      if src != "" {
        whiteListSet := whiteListSet + {src};
      }
    }

    /** `written` tells whether the preference takes the new text. */
    method Save(written: bool) returns (ok: bool, ghost order: seq<string>)
      modifies this`stored
      ensures ok == (preferences && written)
      ensures ok ==> Elements(order) == whiteListSet && stored == TextOf(order)
      ensures !ok ==> stored == old(stored)
    {
      order := [];
      if !preferences {
        return false, order;
      }
      var strStream := "";
      var left := whiteListSet;
      while left != {}
        invariant left <= whiteListSet
        invariant Elements(order) == whiteListSet - left && strStream == TextOf(order)
        decreases left
      {
        var element :| element in left;
        assert (order + [element])[..|order|] == order;
        strStream := strStream + element + [SPLITOR];
        assert Elements(order + [element]) == Elements(order) + {element};
        order := order + [element];
        left := left - {element};
      }
      if !written {
        return false, order;
      }
      stored := strStream;
      ok := true;
    }

    /** Empty patterns are dropped; an empty list is not saved. */
    method UpdateWhiteList(whiteList: set<string>, written: bool) returns (ghost order: seq<string>)
      modifies this`whiteListSet, this`stored
      ensures whiteListSet == whiteList - {""}
      ensures whiteListSet != {} && preferences && written ==>
        Elements(order) == whiteListSet && stored == TextOf(order)
      ensures whiteListSet == {} || !preferences || !written ==> stored == old(stored)
    {
      var filtedWhiteList: set<string> := {};
      var left := whiteList;
      while left != {}
        invariant left <= whiteList && filtedWhiteList == whiteList - left - {""}
        decreases left
      {
        var element :| element in left;
        if element != "" {
          filtedWhiteList := filtedWhiteList + {element};
        }
        left := left - {element};
      }
      whiteListSet := filtedWhiteList;
      order := [];
      if whiteListSet != {} {
        var _, o := Save(written);
        order := o;
      }
    }
  }

  // ---------- saving and loading again ----------

  /** Pieces never hold a comma. */
  lemma {:induction false} PiecesAreClean(src: string, p: string)
    requires p in Pieces(src)
    ensures SPLITOR !in p && p != ""
  {
    var i, j :| 0 <= i < j <= |src| && IsPiece(src, i, j) && src[i..j] == p;
  }

  /** A list of non-empty patterns is found again, in whatever order it was saved,
      precisely when no pattern holds a comma. */
  lemma {:induction false} SaveLoadRoundTrip(patterns: set<string>, order: seq<string>)
    requires Elements(order) == patterns && "" !in patterns
    ensures Pieces(TextOf(order)) == patterns <==> forall p :: p in patterns ==> SPLITOR !in p
  {
    if forall p :: p in patterns ==> SPLITOR !in p {
      forall p | p in order ensures SPLITOR !in p { assert p in Elements(order); }
      TextPieces(order);
    } else {
      var p :| p in patterns && SPLITOR in p;
      if p in Pieces(TextOf(order)) {
        PiecesAreClean(TextOf(order), p);
      }
    }
  }

  /** What a reload finds after an update, the preference being reachable or not and
      taking the text or not. An emptied list is not written, so the list stored
      before comes back, as it does when the save fails. */
  lemma {:induction false} ReloadAfterUpdate(
    text: string, whiteList: set<string>, order: seq<string>, preferences: bool, written: bool)
    requires Elements(order) == whiteList - {""}
    ensures
      var kept := whiteList - {""};
      var saved := kept != {} && preferences && written;
      var stored := if saved then TextOf(order) else text;
      Pieces(stored) == kept <==> if saved then forall p :: p in kept ==> SPLITOR !in p else Pieces(text) == kept
  {
    SaveLoadRoundTrip(whiteList - {""}, order);
  }

  // ---------- commas ----------

  /** A piece is a non-empty stretch without a comma, between commas or ends. */
  lemma {:induction false} PiecesExactly(src: string, p: string)
    ensures p in Pieces(src) <==>
      p != "" && ',' !in p && exists i: nat :: IsStretch(src, p, i)
  {
    if p in Pieces(src) {
      var i, j :| 0 <= i < j <= |src| && IsPiece(src, i, j) && src[i..j] == p;
      assert IsStretch(src, p, i);
    }
    if i: nat :| p != "" && ',' !in p && IsStretch(src, p, i) {
      PieceIsIn(src, i, i + |p|);
    }
  }

  /** `p` stands at position `i`, after a comma or at the start, before a comma or at
      the end. */
  predicate IsStretch(src: string, p: string, i: nat) {
    && i + |p| <= |src| && src[i..i + |p|] == p
    && (i > 0 ==> src[i - 1] == ',') && (i + |p| < |src| ==> src[i + |p|] == ',')
  }

  /** Saving writes each pattern and a comma. */
  lemma {:induction false} SavesWithCommas(order: seq<string>, p: string)
    ensures TextOf([]) == "" && TextOf(order + [p]) == TextOf(order) + p + ","
  {
    assert (order + [p])[..|order|] == order;
    assert [SPLITOR] == ",";
  }
}
