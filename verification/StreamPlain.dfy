/**
 * The plain terminal's chat loop: a `select` over the chunk channel, the interrupt signal and the
 * done channel, then a drain of what was still buffered when done won the race. Which ready case
 * the select takes, and how far the producer has got each time, is left open.
 */
module StreamPlain {
  import opened Basics

  datatype Chunk = Chunk(error: string, reasoning: string, content: string)

  datatype Piece = Thinking | Text(text: string) | Newline

  datatype Ending = Interrupted | StoppedByError | Completed

  const BUFFER := 64

  // ---- what ought to be printed ----

  predicate Thought(cs: seq<Chunk>) {
    exists c :: c in cs && c.reasoning != ""
  }

  function Pieces(c: Chunk, thought: bool): seq<Piece> {
    (if c.reasoning != "" && !thought then [Thinking] else []) + (if c.content != "" then [Text(c.content)] else [])
  }

  function Render(cs: seq<Chunk>): seq<Piece> {
    if cs == [] then [] else Render(cs[..|cs| - 1]) + Pieces(cs[|cs| - 1], Thought(cs[..|cs| - 1]))
  }

  /** The position of the first error chunk, or the length when there is none. */
  function ErrorAt(cs: seq<Chunk>): (n: nat)
    ensures n <= |cs| && (n < |cs| ==> cs[n].error != "") && forall i | 0 <= i < n :: cs[i].error == ""
  {
    if cs == [] then 0 else if cs[0].error != "" then 0 else 1 + ErrorAt(cs[1..])
  }

  function BeforeError(cs: seq<Chunk>): seq<Chunk> {
    cs[..ErrorAt(cs)]
  }

  function Contents(cs: seq<Chunk>): string {
    if cs == [] then "" else Contents(cs[..|cs| - 1]) + cs[|cs| - 1].content
  }

  function Said(p: Piece): string {
    if p.Text? then p.text else ""
  }

  function Printed(out: seq<Piece>): string {
    if out == [] then "" else Printed(out[..|out| - 1]) + Said(out[|out| - 1])
  }

  function Thinkings(out: seq<Piece>): nat {
    if out == [] then 0 else Thinkings(out[..|out| - 1]) + if out[|out| - 1] == Thinking then 1 else 0
  }

  lemma {:induction false} Join(a: seq<Piece>, b: seq<Piece>)
    ensures Printed(a + b) == Printed(a) + Printed(b) && Thinkings(a + b) == Thinkings(a) + Thinkings(b)
    decreases |b|
  {
    if b == [] {
      assert a + b == a;
    } else {
      var b', p := b[..|b| - 1], b[|b| - 1];
      assert (a + b)[..|a + b| - 1] == a + b' && (a + b)[|a + b| - 1] == p;
      Join(a, b');
      Regroup(Printed(a), Printed(b'), Said(p));
    }
  }

  lemma Regroup(x: string, y: string, z: string)
    ensures (x + y) + z == x + (y + z)
  {
  }

  lemma OnePiece(p: Piece)
    ensures Printed([p]) == Said(p)
    ensures Thinkings([p]) == if p == Thinking then 1 else 0
  {
    assert [p][..0] == [];
    assert Printed([]) == "" && Thinkings([]) == 0;
  }

  lemma PiecesOf(c: Chunk, thought: bool)
    ensures Printed(Pieces(c, thought)) == c.content
    ensures Thinkings(Pieces(c, thought)) == if c.reasoning != "" && !thought then 1 else 0
  {
    var a := if c.reasoning != "" && !thought then [Thinking] else [];
    var b := if c.content != "" then [Text(c.content)] else [];
    Join(a, b);
    OnePiece(Thinking);
    OnePiece(Text(c.content));
    assert Printed(a) == "" && Printed(b) == c.content;
  }

  lemma SaysOneMore(cs: seq<Chunk>)
    requires cs != []
    ensures var init, last := cs[..|cs| - 1], cs[|cs| - 1];
            && Printed(Render(cs)) == Printed(Render(init)) + last.content
            && Thinkings(Render(cs)) ==
                 Thinkings(Render(init)) + (if last.reasoning != "" && !Thought(init) then 1 else 0)
  {
    var init, last := cs[..|cs| - 1], cs[|cs| - 1];
    PiecesOf(last, Thought(init));
    Join(Render(init), Pieces(last, Thought(init)));
  }

  lemma ThoughtOneMore(cs: seq<Chunk>)
    requires cs != []
    ensures Thought(cs) <==> Thought(cs[..|cs| - 1]) || cs[|cs| - 1].reasoning != ""
  {
    assert cs == cs[..|cs| - 1] + [cs[|cs| - 1]];
  }

  /** What is rendered says every content once and in order, and announces thinking exactly once if there was any. */
  lemma {:induction false} RenderSaysEverythingOnce(cs: seq<Chunk>)
    ensures Printed(Render(cs)) == Contents(cs)
    ensures Thinkings(Render(cs)) == if Thought(cs) then 1 else 0
    decreases |cs|
  {
    if cs != [] {
      RenderSaysEverythingOnce(cs[..|cs| - 1]);
      SaysOneMore(cs);
      ThoughtOneMore(cs);
    }
  }

  /** The contents alone, each as one piece. */
  function Texts(cs: seq<Chunk>): seq<Piece> {
    if cs == [] then []
    else Texts(cs[..|cs| - 1]) + if cs[|cs| - 1].content != "" then [Text(cs[|cs| - 1].content)] else []
  }

  lemma {:induction false} WithoutThoughtOnlyTexts(cs: seq<Chunk>)
    requires !Thought(cs)
    ensures Render(cs) == Texts(cs)
    decreases |cs|
  {
    if cs != [] {
      ThoughtOneMore(cs);
      WithoutThoughtOnlyTexts(cs[..|cs| - 1]);
    }
  }

  lemma {:induction false} TextsAdd(a: seq<Chunk>, b: seq<Chunk>)
    ensures Texts(a + b) == Texts(a) + Texts(b)
    decreases |b|
  {
    if b == [] {
      assert a + b == a;
    } else {
      assert (a + b)[..|a + b| - 1] == a + b[..|b| - 1];
      TextsAdd(a, b[..|b| - 1]);
    }
  }

  lemma {:induction false} AfterThoughtOnlyTexts(a: seq<Chunk>, b: seq<Chunk>)
    requires Thought(a)
    ensures Render(a + b) == Render(a) + Texts(b)
    decreases |b|
  {
    if b == [] {
      assert a + b == a;
    } else {
      var init := b[..|b| - 1];
      assert (a + b)[..|a + b| - 1] == a + init;
      AfterThoughtOnlyTexts(a, init);
      var c :| c in a && c.reasoning != "";
      assert c in a + init;
    }
  }

  lemma FirstThought(before: seq<Chunk>, c: Chunk)
    requires !Thought(before) && c.reasoning != ""
    ensures Thought(before + [c]) && Render(before + [c]) == Texts(before) + [Thinking] + Texts([c])
  {
    var cs := before + [c];
    assert cs[..|before|] == before && cs[|before|] == c && c in cs;
    WithoutThoughtOnlyTexts(before);
    assert [c][..0] == [] && Texts([]) == [];
    assert Pieces(c, false) == [Thinking] + Texts([c]);
  }

  /** Thinking is announced once, right before the first chunk that brings some, between the contents as they come. */
  lemma ThinkingIsAnnouncedInTime(before: seq<Chunk>, c: Chunk, after: seq<Chunk>)
    requires !Thought(before) && c.reasoning != ""
    ensures Render(before + [c] + after) == Texts(before) + [Thinking] + Texts([c] + after)
  {
    FirstThought(before, c);
    AfterThoughtOnlyTexts(before + [c], after);
    TextsAdd([c], after);
    RegroupPieces(Texts(before) + [Thinking], Texts([c]), Texts(after));
  }

  lemma RegroupPieces(x: seq<Piece>, y: seq<Piece>, z: seq<Piece>)
    ensures (x + y) + z == x + (y + z)
  {
  }

  lemma RenderNext(cs: seq<Chunk>, n: nat)
    requires n < |cs|
    ensures Render(cs[..n + 1]) == Render(cs[..n]) + Pieces(cs[n], Thought(cs[..n]))
    ensures Thought(cs[..n + 1]) == (Thought(cs[..n]) || cs[n].reasoning != "")
  {
    assert cs[..n + 1][..n] == cs[..n];
    assert cs[..n + 1] == cs[..n] + [cs[n]];
  }

  lemma {:induction false} ErrorIsAt(cs: seq<Chunk>, n: nat)
    requires n <= |cs| && (forall i | 0 <= i < n :: cs[i].error == "") && (n < |cs| ==> cs[n].error != "")
    ensures ErrorAt(cs) == n
  {
    assert !(ErrorAt(cs) < n) && !(n < ErrorAt(cs));
  }

  // ---- the loop ----

  class Terminal {
    var out: seq<Piece>
    var errors: seq<string>

    constructor ()
      ensures out == [] && errors == []
    {
      out, errors := [], [];
    }

    method Print(c: Chunk, thought: bool) returns (thought': bool)
      requires c.error == ""
      modifies this`out
      ensures out == old(out) + Pieces(c, thought) && thought' == (thought || c.reasoning != "")
    {
      thought' := thought;
      if c.reasoning != "" && !thought' {
        out := out + [Thinking];
        thought' := true;
      }
      if c.content != "" {
        out := out + [Text(c.content)];
      }
    }

    /** The next chunk, an error or something to print; the first error is the end. */
    method Take(cs: seq<Chunk>, taken: nat, thought: bool) returns (thought': bool, stopped: bool)
      requires taken < |cs| && forall i | 0 <= i < taken :: cs[i].error == ""
      requires out == Render(cs[..taken]) && thought == Thought(cs[..taken]) && errors == []
      modifies this
      ensures stopped ==> ErrorAt(cs) == taken && errors == [cs[taken].error]
                          && out == old(out) == Render(BeforeError(cs))
      ensures !stopped ==> cs[taken].error == "" && errors == []
                           && out == Render(cs[..taken + 1]) && thought' == Thought(cs[..taken + 1])
    {
      var c := cs[taken];
      thought', stopped := thought, c.error != "";
      if stopped {
        errors := errors + [c.error];
        ErrorIsAt(cs, taken);
      } else {
        RenderNext(cs, taken);
        thought' := Print(c, thought);
      }
    }

    /**
     * The producer sends `cs`, perhaps closes the channel, and sends done after its last chunk.
     * Unless the person interrupts, everything before the first error chunk has been printed, in
     * order, whichever way every select went; an interrupt leaves a prefix of it.
     */
    method StreamPlain(cs: seq<Chunk>, doneError: Option<string>, closes: bool) returns (ending: Ending)
      requires out == [] && errors == []
      modifies this
      ensures ending == Interrupted ==> exists n :: 0 <= n <= |BeforeError(cs)| && out == Render(cs[..n])
      ensures ending == StoppedByError ==> out == Render(BeforeError(cs)) && |errors| == 1
      ensures ending == Completed ==> out == Render(BeforeError(cs)) + [Newline]
      ensures ending != Interrupted && ErrorAt(cs) < |cs| ==> errors != [] && errors[0] == cs[ErrorAt(cs)].error
      ensures ending == Completed && ErrorAt(cs) == |cs| ==> errors == if doneError.Some? then [doneError.value] else []
    {
      var sent, taken: nat, doneSent, closed := 0, 0, false, false;
      var listening := true;  // false once the closed channel was replaced by nil
      var thought := false;
      while true
        invariant taken <= sent <= |cs| && sent - taken <= BUFFER
        invariant (doneSent || closed ==> sent == |cs|) && (!listening ==> closed && taken == |cs|)
        invariant forall i | 0 <= i < taken :: cs[i].error == ""
        invariant out == Render(cs[..taken]) && thought == Thought(cs[..taken]) && errors == []
        decreases |cs| - taken, listening
      {
        var interrupted;
        sent, doneSent, closed, interrupted := Await(|cs|, sent, taken, doneSent, closed, closes, listening);
        if {
          case listening && taken < sent =>
            var stopped;
            thought, stopped := Take(cs, taken, thought);
            if stopped {
              return StoppedByError;
            }
            taken := taken + 1;
          case listening && taken == sent && closed =>
            listening := false;
          case interrupted =>
            ErrorAtLeast(cs, taken);
            return Interrupted;
          case doneSent =>
            Complete(cs, taken, thought, listening, doneError);
            return Completed;
        }
      }
    }

    /** Done has won the race: drain, end the line, report the request's own error. */
    method Complete(cs: seq<Chunk>, from: nat, thought: bool, listening: bool, doneError: Option<string>)
      requires from <= |cs| && (!listening ==> from == |cs|) && forall i | 0 <= i < from :: cs[i].error == ""
      requires out == Render(cs[..from]) && thought == Thought(cs[..from]) && errors == []
      modifies this
      ensures out == Render(BeforeError(cs)) + [Newline]
      ensures errors == (if ErrorAt(cs) < |cs| then [cs[ErrorAt(cs)].error] else [])
                        + (if doneError.Some? then [doneError.value] else [])
    {
      Drain(cs, from, thought, listening);
      out := out + [Newline];
      if doneError.Some? {
        errors := errors + [doneError.value];
      }
    }

    /** The select sleeps until a chunk, the end of the chunks, an interrupt or done is ready for it. */
    method Await(n: nat, sent: nat, taken: nat, doneSent: bool, closed: bool, closes: bool, listening: bool)
      returns (sent': nat, doneSent': bool, closed': bool, interrupted: bool)
      requires taken <= sent <= n && sent - taken <= BUFFER && (doneSent || closed ==> sent == n)
      requires !listening ==> taken == n
      ensures sent <= sent' <= n && sent' - taken <= BUFFER && (doneSent ==> doneSent') && (closed ==> closed')
      ensures doneSent' || closed' ==> sent' == n
      ensures interrupted || doneSent' || (listening && (taken < sent' || closed'))
    {
      sent', doneSent', closed' := Produce(n, sent, taken, doneSent, closed, closes);
      interrupted := *;
      if !interrupted && !doneSent' && !(listening && (taken < sent' || closed')) {
        // nothing is ready: the producer has to move
        if sent' < n {
          sent' := sent' + 1;
        } else {
          doneSent' := true;
        }
      }
    }

    /** What the producer's goroutine has done since the last look: it may send, close and finish, in that order. */
    method Produce(n: nat, sent: nat, taken: nat, doneSent: bool, closed: bool, closes: bool)
      returns (sent': nat, doneSent': bool, closed': bool)
      requires taken <= sent <= n && sent - taken <= BUFFER && (doneSent || closed ==> sent == n)
      ensures sent <= sent' <= n && sent' - taken <= BUFFER && (doneSent ==> doneSent') && (closed ==> closed')
      ensures doneSent' || closed' ==> sent' == n
    {
      sent', doneSent', closed' := sent, doneSent, closed;
      var ambition: nat := *;
      if sent <= ambition <= n && ambition - taken <= BUFFER {
        sent' := ambition;
      }
      if sent' == n {
        var finishes, shuts: bool := *, *;
        doneSent' := doneSent || finishes;
        closed' := closed || (closes && shuts);
      }
    }

    /** After done: everything was sent before it, so what is not printed yet is all in the buffer. */
    method Drain(cs: seq<Chunk>, from: nat, thought: bool, listening: bool)
      requires from <= |cs| && (!listening ==> from == |cs|) && forall i | 0 <= i < from :: cs[i].error == ""
      requires out == Render(cs[..from]) && thought == Thought(cs[..from]) && errors == []
      modifies this
      ensures out == Render(BeforeError(cs))
      ensures errors == if ErrorAt(cs) < |cs| then [cs[ErrorAt(cs)].error] else []
    {
      var taken, thought' := from, thought;
      while listening && taken < |cs|
        invariant from <= taken <= |cs| && forall i | 0 <= i < taken :: cs[i].error == ""
        invariant out == Render(cs[..taken]) && thought' == Thought(cs[..taken]) && errors == []
      {
        var stopped;
        thought', stopped := Take(cs, taken, thought');
        if stopped {
          return;
        }
        taken := taken + 1;
      }
      ErrorIsAt(cs, taken);
    }
  }

  lemma ErrorAtLeast(cs: seq<Chunk>, n: nat)
    requires n <= |cs| && forall i | 0 <= i < n :: cs[i].error == ""
    ensures n <= ErrorAt(cs)
  {
  }
}
