/** The cheap check both listeners run on a raw `custom_id` before asking the
    decoder about it. */
module Screen {
  import opened Python

  /** First character of every id this extension produces. */
  const Marker: char := 'p'
  /** Character that ends the header, at index 1 or index 2. */
  const Separator: char := '~'

  /** An id carries this extension's header: the marker, then the separator either
      right after it or after one more (mode) character. */
  predicate HasHeader(id: string)
  {
    && |id| >= 2
    && id[0] == Marker
    && (id[1] == Separator || (|id| >= 3 && id[2] == Separator))
  }

  /** The ids on which the listeners' screening expression evaluates without an
      index error: `custom_id[0]` needs a first character, and when that is the
      marker, `custom_id[2]` needs a third. */
  predicate ScreenDefined(id: string)
  {
    |id| > 0 && (id[0] == Marker ==> |id| >= 3)
  }

  /** What evaluating the screening expression yields. */
  datatype Verdict = Accept | Reject | ScreenRaised(error: PyError)

  /** The screening expression as the listeners write it: a tuple whose two
      elements are both evaluated before `any` runs, so `startswith` does not
      protect the indexing of the second element; inside that element `and`
      short-circuits, so index 2 is read only when index 0 is the marker. */
  function ScreenAsWritten(id: string): (v: Verdict)
    ensures v.ScreenRaised? <==> !ScreenDefined(id)
    ensures v.ScreenRaised? ==> v.error == IndexError
    ensures ScreenDefined(id) ==> (v == Accept <==> HasHeader(id))
  {
    var first := "p~" <= id;  // `str.startswith`
    if |id| == 0 then ScreenRaised(IndexError)
    else if id[0] != 'p' then (if first then Accept else Reject)
    else if |id| < 3 then ScreenRaised(IndexError)
    else if first || id[2] == '~' then Accept else Reject
  }

  /** The screen as evidently intended: the same two disjuncts, each guarded so
      that it cannot index past the end of the string. */
  function ScreenIntended(id: string): (accepted: bool)
    ensures accepted <==> HasHeader(id)
  {
    "p~" <= id || (|id| >= 3 && id[0] == 'p' && id[2] == '~')
  }

  /** Wherever the written expression evaluates, it agrees with the intended one. */
  lemma ScreensAgreeWhereDefined(id: string)
    requires ScreenDefined(id)
    ensures ScreenAsWritten(id) == (if ScreenIntended(id) then Accept else Reject)
  {
  }

  /** The shortest id with this extension's header makes the written screen raise
      instead of accepting it. */
  lemma ShortHeaderRaises()
    ensures HasHeader("p~")
    ensures ScreenAsWritten("p~") == ScreenRaised(IndexError)
    ensures ScreenIntended("p~")
  {
  }

  /** A foreign two-character id starting with the marker makes the written screen
      raise instead of ignoring it. */
  lemma ForeignShortIdRaises()
    ensures !HasHeader("pa")
    ensures ScreenAsWritten("pa") == ScreenRaised(IndexError)
    ensures !ScreenIntended("pa")
  {
  }
}
