/** fs_normalize_path: an in-place rewriter with nine states, and the stack of fields it computes. */
module PathNormal {
  const NUL := '\0'
  const SLASH := '/'
  const POINT := '.'

  // ---- the meaning: a stack of fields ----

  /** Whether a leading slash is to be written, and the fields kept so far. */
  datatype Fields = Fields(lead: bool, stack: seq<string>)

  /** One field: '.' says nothing; '..' takes the last field back, and when there is none, the
      leading slash; any other field is kept. */
  function Take(f: Fields, field: string): Fields {
    if field == "." then f
    else if field == ".." then
      if f.stack == [] then f.(lead := false) else f.(stack := f.stack[..|f.stack| - 1])
    else f.(stack := f.stack + [field])
  }

  /** End of the field that `s` starts with. */
  function FieldEnd(s: string): (n: nat)
    ensures n <= |s| && SLASH !in s[..n] && (n < |s| ==> s[n] == SLASH)
  {
    if s == [] || s[0] == SLASH then 0 else 1 + FieldEnd(s[1..])
  }

  /** All fields of `s` in turn; slashes only separate. */
  function TakeAll(f: Fields, s: string): Fields
    decreases |s|
  {
    if s == [] then f
    else if s[0] == SLASH then TakeAll(f, s[1..])
    else TakeAll(Take(f, s[..FieldEnd(s)]), s[FieldEnd(s)..])
  }

  /** Every field with a slash behind it, after the leading slash if any. */
  function Buffer(f: Fields): string
    decreases |f.stack|
  {
    if f.stack == [] then if f.lead then [SLASH] else []
    else Buffer(f.(stack := f.stack[..|f.stack| - 1])) + f.stack[|f.stack| - 1] + [SLASH]
  }

  /** The path written: no slash at the end, so that a lone leading slash is lost too. */
  function Render(f: Fields): string {
    if f.stack == [] then [] else Buffer(f.(stack := f.stack[..|f.stack| - 1])) + f.stack[|f.stack| - 1]
  }

  /** The normal form of a path. */
  function Normal(s: string): string {
    Render(TakeAll(Fields(s != [] && s[0] == SLASH, []), s))
  }

  // ---- it is shorter, and normal already ----

  predicate Plain(field: string) {
    field != [] && field != "." && field != ".." && SLASH !in field
  }

  predicate AllPlain(f: Fields) { forall i | 0 <= i < |f.stack| :: Plain(f.stack[i]) }

  lemma BufferSnoc(f: Fields, field: string)
    ensures Buffer(f.(stack := f.stack + [field])) == Buffer(f) + field + [SLASH]
  {
    assert (f.stack + [field])[..|f.stack|] == f.stack;
  }

  lemma RenderSnoc(f: Fields, field: string)
    ensures Render(f.(stack := f.stack + [field])) == Buffer(f) + field
  {
    hide Buffer;
    assert (f.stack + [field])[..|f.stack|] == f.stack;
  }

  lemma StackSplit(f: Fields)
    requires f.stack != []
    ensures f == f.(stack := f.stack[..|f.stack| - 1] + [f.stack[|f.stack| - 1]])
  {
    assert f.stack == f.stack[..|f.stack| - 1] + [f.stack[|f.stack| - 1]];
  }

  /** The last slash of the buffer is what the path written leaves out. */
  lemma RenderStrips(f: Fields)
    ensures f.stack != [] ==> Buffer(f) == Render(f) + [SLASH]
    ensures f.stack == [] ==> Render(f) == [] && Buffer(f) == if f.lead then [SLASH] else []
  {
    if f.stack != [] {
      var g, x := f.(stack := f.stack[..|f.stack| - 1]), f.stack[|f.stack| - 1];
      assert Buffer(g) + x + [SLASH] == (Buffer(g) + x) + [SLASH];
    }
  }

  lemma TakePlain(f: Fields, field: string)
    requires AllPlain(f) && field != [] && SLASH !in field
    ensures AllPlain(Take(f, field))
  {
  }

  /** A field takes no more room than it had in the input, with one slash for each field. */
  lemma {:induction false} TakenFits(f: Fields, s: string)
    requires AllPlain(f)
    ensures AllPlain(TakeAll(f, s)) && |Render(TakeAll(f, s))| <= |Buffer(f)| + |s|
    decreases |s|
  {
    if s == [] {
      hide Buffer, Render;
      RenderStrips(f);
    } else if s[0] == SLASH {
      hide Buffer, Render;
      TakenFits(f, s[1..]);
    } else {
      var n := FieldEnd(s);
      var g := Take(f, s[..n]);
      TakePlain(f, s[..n]);
      TakeGrows(f, s[..n]);
      hide Buffer, Render, Take;
      if n == |s| {
        assert s[n..] == [];
        LastFits(f, s);
      } else {
        assert s[n..][0] == SLASH && s[n..][1..] == s[n + 1..];
        TakenFits(g, s[n + 1..]);
      }
    }
  }

  lemma TakeGrows(f: Fields, field: string)
    ensures |Buffer(Take(f, field))| <= |Buffer(f)| + |field| + 1
  {
    if field == ".." {
      if f.stack != [] {
        StackSplit(f);
        BufferSnoc(f.(stack := f.stack[..|f.stack| - 1]), f.stack[|f.stack| - 1]);
      }
    } else if field != "." {
      BufferSnoc(f, field);
    }
  }

  /** A last field has no slash behind it. */
  lemma LastFits(f: Fields, field: string)
    ensures |Render(Take(f, field))| <= |Buffer(f)| + |field|
  {
    RenderStrips(Take(f, field));
    RenderStrips(f);
    if field == ".." {
      if f.stack != [] {
        StackSplit(f);
        BufferSnoc(f.(stack := f.stack[..|f.stack| - 1]), f.stack[|f.stack| - 1]);
      }
    } else if field != "." {
      RenderSnoc(f, field);
    }
  }

  /** The normal form is never longer than the path. */
  lemma NeverLonger(s: string)
    ensures |Normal(s)| <= |s|
  {
    var lead := s != [] && s[0] == SLASH;
    if lead {
      hide Render;
      TakenFits(Fields(true, []), s[1..]);
      assert Buffer(Fields(true, [])) == [SLASH];
    } else {
      hide Render;
      TakenFits(Fields(false, []), s);
      assert Buffer(Fields(false, [])) == [];
    }
  }

  lemma {:induction false} FieldEndIs(x: string, rest: string)
    requires SLASH !in x && (rest == [] || rest[0] == SLASH)
    ensures FieldEnd(x + rest) == |x|
    decreases |x|
  {
    if x == [] {
      assert x + rest == rest;
    } else {
      assert (x + rest)[1..] == x[1..] + rest;
      FieldEndIs(x[1..], rest);
    }
  }

  /** A field read at the start of what is left. */
  lemma TakeField(f: Fields, x: string, rest: string)
    requires x != [] && SLASH !in x && (rest == [] || rest[0] == SLASH)
    ensures TakeAll(f, x + rest) == TakeAll(Take(f, x), rest)
  {
    hide Take;
    FieldEndIs(x, rest);
    assert (x + rest)[0] == x[0] && (x + rest)[..|x|] == x && (x + rest)[|x|..] == rest;
  }

  lemma TakePlainField(f: Fields, x: string, rest: string)
    requires Plain(x)
    ensures TakeAll(f, x + ([SLASH] + rest)) == TakeAll(f.(stack := f.stack + [x]), rest)
  {
    var tail := [SLASH] + rest;
    TakeField(f, x, tail);
    assert tail[1..] == rest;
  }

  /** Reading a buffer of plain fields gives the fields back. */
  lemma {:induction false} BufferRead(f: Fields, g: Fields, rest: string)
    requires AllPlain(g)
    ensures TakeAll(f, Buffer(g) + rest) == TakeAll(f.(stack := f.stack + g.stack), rest)
    decreases |g.stack|
  {
    if g.stack == [] {
      assert f.stack + g.stack == f.stack;
      EmptyRead(f, g, rest);
    } else {
      var h, x := g.(stack := g.stack[..|g.stack| - 1]), g.stack[|g.stack| - 1];
      assert Plain(x);
      hide TakeAll, Plain;
      BufferLast(g, rest);
      hide Buffer;
      BufferRead(f, h, x + ([SLASH] + rest));
      var e := f.(stack := f.stack + h.stack);
      TakePlainField(e, x, rest);
      assert e.stack + [x] == f.stack + g.stack;
    }
  }

  lemma EmptyRead(f: Fields, g: Fields, rest: string)
    requires g.stack == []
    ensures TakeAll(f, Buffer(g) + rest) == TakeAll(f, rest)
  {
    if g.lead {
      assert ([SLASH] + rest)[1..] == rest;
    } else {
      assert [] + rest == rest;
    }
  }

  lemma BufferLast(g: Fields, rest: string)
    requires g.stack != []
    ensures var h, x := g.(stack := g.stack[..|g.stack| - 1]), g.stack[|g.stack| - 1];
            Buffer(g) + rest == Buffer(h) + (x + ([SLASH] + rest))
  {
  }

  /** Normalizing twice is normalizing once. */
  lemma Idempotent(s: string)
    ensures Normal(Normal(s)) == Normal(s)
  {
    var f := TakeAll(Fields(s != [] && s[0] == SLASH, []), s);
    TakenFits(Fields(s != [] && s[0] == SLASH, []), s);
    RenderedNormal(f);
  }

  lemma RenderedNormal(f: Fields)
    requires AllPlain(f)
    ensures Normal(Render(f)) == Render(f)
  {
    var r := Render(f);
    if f.stack != [] {
      var h, x := f.(stack := f.stack[..|f.stack| - 1]), f.stack[|f.stack| - 1];
      StackSplit(f);
      assert Plain(x);
      RenderSnoc(h, x);
      FirstChar(h, x);
      var start := Fields(f.lead, []);
      hide Buffer, Render;
      BufferRead(start, h, x);
      var e := start.(stack := start.stack + h.stack);
      assert e == h by { assert [] + h.stack == h.stack; }
      assert x + [] == x;
      TakeField(h, x, []);
      assert Take(h, x) == f;
      assert TakeAll(f, []) == f;
    }
  }

  lemma {:induction false} FirstChar(h: Fields, x: string)
    requires AllPlain(h) && x != [] && SLASH !in x
    ensures Buffer(h) + x != [] && ((Buffer(h) + x)[0] == SLASH <==> h.lead)
    decreases |h.stack|
  {
    if h.stack == [] {
      assert !h.lead ==> [] + x == x;
    } else {
      var g, y := h.(stack := h.stack[..|h.stack| - 1]), h.stack[|h.stack| - 1];
      assert Plain(y);
      FirstChar(g, y);
      StackSplit(h);
      BufferSnoc(g, y);
    }
  }

  // ---- when an absolute path stays absolute ----

  /** How many fields are kept, from `k` on: '..' takes one back, and once it is read where
      there is none the count stays below zero. */
  function Depth(k: int, s: string): int
    decreases |s|
  {
    if k < 0 || s == [] then k
    else if s[0] == SLASH then Depth(k, s[1..])
    else
      var field := s[..FieldEnd(s)];
      Depth(if field == "." then k else if field == ".." then k - 1 else k + 1, s[FieldEnd(s)..])
  }

  lemma {:induction false} LeadStaysLost(f: Fields, s: string)
    requires !f.lead
    ensures !TakeAll(f, s).lead
    decreases |s|
  {
    if s != [] {
      if s[0] == SLASH {
        LeadStaysLost(f, s[1..]);
      } else {
        LeadStaysLost(Take(f, s[..FieldEnd(s)]), s[FieldEnd(s)..]);
      }
    }
  }

  /** The leading slash is lost exactly when the count drops below zero. */
  lemma {:induction false} DepthIs(f: Fields, s: string)
    requires f.lead
    ensures var g, d := TakeAll(f, s), Depth(|f.stack|, s); if d >= 0 then g.lead && |g.stack| == d else !g.lead
    decreases |s|
  {
    if s != [] {
      if s[0] == SLASH {
        DepthIs(f, s[1..]);
      } else {
        var field, rest := s[..FieldEnd(s)], s[FieldEnd(s)..];
        var g := Take(f, field);
        if g.lead {
          DepthIs(g, rest);
        } else {
          LeadStaysLost(g, rest);
        }
      }
    }
  }

  /** What is written starts with a slash exactly when there is a field and the slash was not taken back. */
  lemma RenderLead(f: Fields)
    requires AllPlain(f)
    ensures (Render(f) != [] && Render(f)[0] == SLASH) <==> (f.lead && f.stack != [])
  {
    if f.stack != [] {
      var h, x := f.(stack := f.stack[..|f.stack| - 1]), f.stack[|f.stack| - 1];
      StackSplit(f);
      assert Plain(x);
      RenderSnoc(h, x);
      FirstChar(h, x);
    }
  }

  /** An absolute path stays absolute exactly when its fields never take back more than there
      are and leave at least one; when they leave none nothing is written. A relative path
      never becomes absolute. */
  lemma StaysAbsolute(s: string)
    ensures s != [] && s[0] == SLASH ==>
              && ((Normal(s) != [] && Normal(s)[0] == SLASH) <==> Depth(0, s) > 0)
              && (Depth(0, s) == 0 ==> Normal(s) == [])
    ensures (s == [] || s[0] != SLASH) && Normal(s) != [] ==> Normal(s)[0] != SLASH
  {
    var lead := s != [] && s[0] == SLASH;
    var start := Fields(lead, []);
    TakenFits(start, s);
    RenderLead(TakeAll(start, s));
    if lead {
      DepthIs(start, s);
    } else {
      LeadStaysLost(start, s);
    }
  }

  /** The root does not survive, alone or under '..': a lone leading slash counts as a
      trailing one, and '..' takes it back like a field. */
  lemma RootVanishes()
    ensures Normal("/") == ""
    ensures Normal("/../a") == "a"
  {
    var f := Fields(true, []);
    assert "/"[1..] == "" && TakeAll(f, "/") == f;
    var g := Fields(false, []);
    assert "/../a"[1..] == ".." + "/a" && "/a"[1..] == "a" + "";
    TakeField(f, "..", "/a");
    TakeField(g, "a", "");
    assert TakeAll(g, "/a") == g.(stack := ["a"]);
    assert Buffer(g.(stack := [])) + "a" == "a";
  }

  // ---- the rewriter ----

  datatype Mode = Initial | FieldStart | InField | Sep | SeenSep | Dot | SeenDot | DotDot | SeenDotDot

  /** How far a mode is from reading the next character. */
  function Rank(m: Mode): nat {
    match m
    case Sep => 0
    case Dot => 0
    case DotDot => 0
    case InField => 1
    case SeenDot => 2
    case SeenDotDot => 2
    case FieldStart => 3
    case SeenSep => 4
    case Initial => 5
  }

  /** What has been written, what is left to read and the fields `goal` it must come to:
      `f` are the fields written, `x` the part of a field written already. */
  predicate Linked(m: Mode, out: string, rest: string, f: Fields, x: string, goal: Fields) {
    match m
    case Initial => out == [] && goal == TakeAll(Fields(rest != [] && rest[0] == SLASH, []), rest)
    case FieldStart => out == Buffer(f) && (rest == [] || rest[0] != SLASH) && TakeAll(f, rest) == goal
    case InField =>
      out == Buffer(f) + x && SLASH !in x && TakeAll(f, x + rest) == goal && Plain(x + rest[..FieldEnd(rest)])
    case Sep => rest != [] && rest[0] == SLASH && out + [SLASH] == Buffer(f) && TakeAll(f, rest[1..]) == goal
    case SeenSep => out == Buffer(f) && TakeAll(f, rest) == goal
    case Dot => out == Buffer(f) && rest != [] && rest[0] == POINT && TakeAll(f, rest) == goal
    case SeenDot => out == Buffer(f) && TakeAll(f, [POINT] + rest) == goal
    case DotDot => out == Buffer(f) && rest != [] && rest[0] == POINT && TakeAll(f, [POINT] + rest) == goal
    case SeenDotDot => out == Buffer(f) && TakeAll(f, [POINT, POINT] + rest) == goal
  }

  lemma StartLinked(rest: string, any: Fields, goal: Fields) returns (f: Fields)
    requires Linked(Initial, [], rest, any, [], goal)
    ensures rest != [] && rest[0] == SLASH ==> Linked(Sep, [], rest, f, [], goal)
    ensures rest != [] && rest[0] == POINT ==> Linked(Dot, [], rest, f, [], goal)
    ensures rest == [] || rest[0] != SLASH ==> Linked(FieldStart, [], rest, f, [], goal)
    ensures AllPlain(f)
  {
    f := Fields(rest != [] && rest[0] == SLASH, []);
  }

  lemma FieldBegins(out: string, rest: string, f: Fields, goal: Fields)
    requires Linked(FieldStart, out, rest, f, [], goal) && rest != [] && rest[0] != POINT
    ensures Linked(InField, out, rest, f, [], goal)
  {
    hide Buffer, TakeAll;
    assert [] + rest == rest && Buffer(f) + [] == Buffer(f);
    assert ([] + rest[..FieldEnd(rest)])[0] == rest[0];
  }

  lemma FieldGrows(out: string, rest: string, f: Fields, x: string, goal: Fields)
    requires Linked(InField, out, rest, f, x, goal) && rest != [] && rest[0] != SLASH
    ensures Linked(InField, out + [rest[0]], rest[1..], f, x + [rest[0]], goal)
  {
    hide Buffer, TakeAll;
    var c, tail := rest[0], rest[1..];
    assert x + [c] + tail == x + rest;
    assert x + [c] + tail[..FieldEnd(tail)] == x + rest[..FieldEnd(rest)];
  }

  lemma FieldStops(out: string, rest: string, f: Fields, x: string, goal: Fields) returns (g: Fields)
    requires Linked(InField, out, rest, f, x, goal) && (rest == [] || rest[0] == SLASH)
    ensures rest != [] ==> Linked(Sep, out, rest, g, [], goal)
    ensures rest == [] ==> out == Render(goal)
    ensures AllPlain(f) ==> AllPlain(g)
  {
    assert x + rest[..FieldEnd(rest)] == x;
    TakeField(f, x, rest);
    g := Take(f, x);
    BufferSnoc(f, x);
    RenderSnoc(f, x);
    hide Buffer, Render;
  }

  lemma DotsPass(out: string, rest: string, f: Fields, goal: Fields)
    requires Linked(SeenDot, out, rest, f, [], goal) && (rest == [] || rest[0] == SLASH)
    ensures Linked(SeenSep, out, rest, f, [], goal) && (rest != [] ==> Linked(SeenSep, out, rest[1..], f, [], goal))
  {
    TakeField(f, [POINT], rest);
    assert Take(f, [POINT]) == f;
    hide Buffer;
  }

  lemma DotField(out: string, rest: string, f: Fields, goal: Fields)
    requires Linked(SeenDot, out, rest, f, [], goal) && rest != [] && rest[0] != SLASH && rest[0] != POINT
    ensures Linked(InField, out + [POINT], rest, f, [POINT], goal)
  {
    hide Buffer, TakeAll;
    var w := [POINT] + rest[..FieldEnd(rest)];
    assert |w| >= 2 && w[1] == rest[0];
  }

  lemma DotDotField(out: string, rest: string, f: Fields, goal: Fields)
    requires Linked(SeenDotDot, out, rest, f, [], goal) && rest != [] && rest[0] != SLASH
    ensures Linked(InField, out + [POINT] + [POINT], rest, f, [POINT, POINT], goal)
  {
    hide Buffer, TakeAll;
    var w := [POINT, POINT] + rest[..FieldEnd(rest)];
    assert |w| >= 3;
    assert out + [POINT] + [POINT] == out + [POINT, POINT];
  }

  lemma DotDotTakes(out: string, rest: string, f: Fields, goal: Fields)
    requires Linked(SeenDotDot, out, rest, f, [], goal) && (rest == [] || rest[0] == SLASH)
    ensures rest == [] ==> goal == Take(f, [POINT, POINT])
    ensures rest != [] ==> TakeAll(Take(f, [POINT, POINT]), rest[1..]) == goal
  {
    hide Buffer, Take;
    TakeField(f, [POINT, POINT], rest);
  }

  lemma DotMoves(out: string, rest: string, f: Fields, goal: Fields)
    ensures Linked(Dot, out, rest, f, [], goal) ==> Linked(SeenDot, out, rest[1..], f, [], goal)
    ensures Linked(DotDot, out, rest, f, [], goal) ==> Linked(SeenDotDot, out, rest[1..], f, [], goal)
  {
    hide Buffer, TakeAll;
    if rest != [] && rest[0] == POINT {
      assert [POINT] + rest[1..] == rest;
      assert [POINT, POINT] + rest[1..] == [POINT] + rest;
    }
  }

  lemma {:induction false} BufferEnds(f: Fields)
    ensures Buffer(f) == [] || Buffer(f)[|Buffer(f)| - 1] == SLASH
  {
  }

  /** The inner loop: back over the characters of a field to the slash before it. */
  method WalkBack(path: array<char>, outpos: nat, ghost k: nat, ghost y: string) returns (q: nat)
    requires outpos == k + |y| <= path.Length && (k == 0 || path[k - 1] == SLASH)
    requires path[k..outpos] == y && SLASH !in y
    ensures q == k
  {
    q := outpos;
    assert forall i | k <= i < outpos :: path[i] == y[i - k];
    while q > 0 && path[q - 1] != SLASH
      invariant k <= q <= outpos
    {
      q := q - 1;
    }
  }

  /** '..' takes the last field written back. */
  method TakeBack(path: array<char>, outpos: nat, ghost f: Fields) returns (q: nat)
    requires outpos <= path.Length && path[..outpos] == Buffer(f) && AllPlain(f)
    ensures q <= outpos && path[..q] == Buffer(Take(f, [POINT, POINT]))
  {
    hide Buffer, Take;
    q := outpos;
    NoBuffer(f);
    if q > 0 {
      q := q - 1;
      ghost var h := if f.stack == [] then f.(lead := false) else f.(stack := f.stack[..|f.stack| - 1]);
      ghost var y := if f.stack == [] then [] else f.stack[|f.stack| - 1];
      LastField(f, h, y);
      Pieces(path[..outpos], Buffer(h), y);
      BufferEnds(h);
      ghost var k := |Buffer(h)|;
      assert path[..outpos][..k] == path[..k] && path[..outpos][k..outpos - 1] == path[k..outpos - 1];
      assert k > 0 ==> path[..k][k - 1] == path[k - 1];
      q := WalkBack(path, q, k, y);
    }
  }

  lemma Pieces(was: string, b: string, y: string)
    requires was == b + y + [SLASH]
    ensures was[..|b|] == b && was[|b|..|was| - 1] == y
  {
  }

  lemma NoBuffer(f: Fields)
    requires AllPlain(f)
    ensures Buffer(f) == [] <==> f.stack == [] && !f.lead
    ensures f.stack == [] && !f.lead ==> Take(f, [POINT, POINT]) == f
  {
    hide Plain;
  }

  lemma LastField(f: Fields, h: Fields, y: string)
    requires AllPlain(f) && (f.stack != [] || f.lead)
    requires h == if f.stack == [] then f.(lead := false) else f.(stack := f.stack[..|f.stack| - 1])
    requires y == if f.stack == [] then [] else f.stack[|f.stack| - 1]
    ensures Buffer(f) == Buffer(h) + y + [SLASH] && SLASH !in y && Take(f, [POINT, POINT]) == h
  {
    if f.stack != [] {
      StackSplit(f);
      BufferSnoc(h, y);
      assert Plain(y);
    } else {
      assert Buffer(f) == [SLASH] && Buffer(h) == [] && [] + [] + [SLASH] == [SLASH];
    }
  }

  lemma RenderEnds(f: Fields)
    requires AllPlain(f)
    ensures Render(f) == [] || Render(f)[|Render(f)| - 1] != SLASH
  {
    hide Buffer;
    if f.stack != [] {
      var x := f.stack[|f.stack| - 1];
      assert Plain(x);
      assert Render(f)[|Render(f)| - 1] == x[|x| - 1];
    }
  }

  /** What stands in the buffer between two steps: `out` written, `rest` not yet read. */
  ghost predicate Standing(b: string, s: string, m: Mode, pos: nat, outpos: nat, f: Fields, x: string, goal: Fields) {
    && |s| < |b| && pos <= |s| && outpos <= pos
    && (m.SeenDot? || m.DotDot? ==> outpos + 1 <= pos) && (m.SeenDotDot? ==> outpos + 2 <= pos)
    && b[pos..|s| + 1] == s[pos..] + [NUL] && NUL !in s
    && AllPlain(f) && Linked(m, b[..outpos], s[pos..], f, x, goal)
  }

  /** The character read, and what is left behind it. */
  lemma Reading(b: string, s: string, m: Mode, pos: nat, outpos: nat, f: Fields, x: string, goal: Fields)
    requires Standing(b, s, m, pos, outpos, f, x, goal)
    ensures b[pos] == NUL <==> pos == |s|
    ensures pos < |s| ==> s[pos..] != [] && b[pos] == s[pos] == s[pos..][0] && s[pos..][1..] == s[pos + 1..]
                          && b[pos + 1..|s| + 1] == s[pos + 1..] + [NUL]
    ensures pos == |s| ==> s[pos..] == []
  {
    hide Linked, AllPlain;
    var r := b[pos..|s| + 1];
    assert r[0] == b[pos];
    if pos < |s| {
      assert r[1..] == b[pos + 1..|s| + 1];
      assert (s[pos..] + [NUL])[1..] == s[pos + 1..] + [NUL];
    }
  }

  /** Storing a character over one that has been read. */
  lemma Storing(b: string, outpos: nat, c: char, from: nat, to: nat)
    requires outpos < |b| && outpos < from <= to <= |b|
    ensures b[outpos := c][..outpos + 1] == b[..outpos] + [c] && b[outpos := c][from..to] == b[from..to]
  {
  }

  /** The final strip of a trailing slash and the terminator. */
  method Finish(path: array<char>, outpos: nat, ghost goal: Fields) returns (q: nat)
    requires outpos < path.Length && AllPlain(goal)
    requires path[..outpos] == Buffer(goal) || path[..outpos] == Render(goal)
    modifies path
    ensures q == |Render(goal)| <= outpos && path[..q + 1] == Render(goal) + [NUL]
    ensures path[outpos + 1..] == old(path[outpos + 1..])
  {
    hide Buffer, Render;
    RenderStrips(goal);
    RenderEnds(goal);
    ghost var was := path[..outpos];
    q := outpos;
    if outpos > 0 && path[outpos - 1] == SLASH {
      assert was[outpos - 1] == SLASH;
      q := outpos - 1;
    }
    assert path[..q] == was[..q];
    assert outpos > 0 ==> was[outpos - 1] == path[outpos - 1];
    path[q] := NUL;
    assert path[..q + 1] == path[..q] + [NUL];
  }

  /** What one step of the loop leaves: progress, and the state linked to the goal or the
      whole output. */
  twostate predicate Stepped(path: array<char>, s: string, m: Mode, pos: nat, m': Mode, pos': nat, outpos': nat,
    done: bool,
                             f': Fields, x': string, goal: Fields)
    reads path
  {
    && |s| < path.Length && pos' <= |s| + 1
    && (pos < pos' || (pos == pos' && (Rank(m') < Rank(m) || (m' == m && done))))
    && (!done ==> Standing(path[..], s, m', pos', outpos', f', x', goal))
    && (done ==> outpos' <= |s| && (path[..outpos'] == Buffer(goal) || path[..outpos'] == Render(goal)))
    && path[|s| + 1..] == old(path[|s| + 1..])
  }

  /** A character stored behind the reading position. */
  method Emit(path: array<char>, outpos: nat, c: char, ghost s: string, ghost pos: nat)
    requires outpos < pos <= |s| + 1 <= path.Length
    modifies path
    ensures path[..outpos + 1] == old(path[..outpos]) + [c]
    ensures path[..][..outpos + 1] == old(path[..])[..outpos] + [c]
    ensures path[..][pos..|s| + 1] == old(path[..])[pos..|s| + 1]
    ensures path[|s| + 1..] == old(path[|s| + 1..])
  {
    ghost var b := path[..];
    path[outpos] := c;
    Storing(b, outpos, c, pos, |s| + 1);
    Storing(b, outpos, c, |s| + 1, |b|);
    assert path[..] == b[outpos := c];
    assert path[..outpos + 1] == path[..][..outpos + 1] && b[..outpos] == old(path[..outpos]);
    assert path[|s| + 1..] == path[..][|s| + 1..|b|] && old(path[|s| + 1..]) == b[|s| + 1..|b|];
  }

  /** IN_FIELD */
  method StepInField(path: array<char>, pos: nat, outpos: nat, ghost s: string, ghost f: Fields, ghost x: string,
                     ghost goal: Fields)
    returns (m: Mode, p: nat, o: nat, done: bool, ghost g: Fields, ghost y: string)
    requires Standing(path[..], s, InField, pos, outpos, f, x, goal)
    modifies path
    ensures Stepped(path, s, InField, pos, m, p, o, done, g, y, goal)
  {
    hide Buffer, Render, Linked, AllPlain;
    Reading(path[..], s, InField, pos, outpos, f, x, goal);
    var c := path[pos];
    m, p, o, done, g, y := InField, pos, outpos, false, f, x;
    assert path[..][..outpos] == path[..outpos];
    if c == SLASH {
      g := FieldStops(path[..outpos], s[pos..], f, x, goal);
      m, y := Sep, [];
    } else if c == NUL {
      g := FieldStops(path[..outpos], s[pos..], f, x, goal);
      done := true;
    } else {
      FieldGrows(path[..outpos], s[pos..], f, x, goal);
      Emit(path, outpos, c, s, pos + 1);
      p, o, y := pos + 1, outpos + 1, x + [c];
    }
  }

  /** SEP */
  method StepSep(path: array<char>, pos: nat, outpos: nat, ghost s: string, ghost f: Fields, ghost x: string,
                 ghost goal: Fields)
    returns (o: nat)
    requires Standing(path[..], s, Sep, pos, outpos, f, x, goal)
    modifies path
    ensures Stepped(path, s, Sep, pos, SeenSep, pos + 1, o, false, f, x, goal)
  {
    hide Buffer, Render, AllPlain, TakeAll;
    Reading(path[..], s, Sep, pos, outpos, f, x, goal);
    Emit(path, outpos, SLASH, s, pos + 1);
    o := outpos + 1;
  }

  /** SEEN_DOT */
  method StepSeenDot(path: array<char>, pos: nat, outpos: nat, ghost s: string, ghost f: Fields, ghost x: string,
                     ghost goal: Fields)
    returns (m: Mode, p: nat, o: nat, done: bool, ghost y: string)
    requires Standing(path[..], s, SeenDot, pos, outpos, f, x, goal)
    modifies path
    ensures Stepped(path, s, SeenDot, pos, m, p, o, done, f, y, goal)
  {
    hide Buffer, Render, AllPlain, Linked;
    Reading(path[..], s, SeenDot, pos, outpos, f, x, goal);
    XFree(SeenDot, path[..][..outpos], s[pos..], f, x, goal);
    var c := path[pos];
    m, p, o, done, y := SeenDot, pos, outpos, false, [];
    assert path[..][..outpos] == path[..outpos];
    if c == POINT {
      m := DotDot;
      SecondDot(path[..outpos], s[pos..], f, goal);
    } else if c == SLASH {
      DotsPass(path[..outpos], s[pos..], f, goal);
      m, p := SeenSep, pos + 1;
    } else if c == NUL {
      DotsPass(path[..outpos], s[pos..], f, goal);
      AllRead(path[..outpos], s[pos..], f, goal);
      done := true;
    } else {
      DotField(path[..outpos], s[pos..], f, goal);
      Emit(path, outpos, POINT, s, pos);
      m, o, y := InField, outpos + 1, [POINT];
    }
  }

  /** SEEN_DOTDOT */
  method StepSeenDotDot(path: array<char>, pos: nat, outpos: nat, ghost s: string, ghost f: Fields, ghost x: string,
                        ghost goal: Fields)
    returns (m: Mode, p: nat, o: nat, done: bool, ghost g: Fields, ghost y: string)
    requires Standing(path[..], s, SeenDotDot, pos, outpos, f, x, goal)
    modifies path
    ensures Stepped(path, s, SeenDotDot, pos, m, p, o, done, g, y, goal)
  {
    hide Buffer, Render, AllPlain, Linked, Take, TakeAll;
    Reading(path[..], s, SeenDotDot, pos, outpos, f, x, goal);
    XFree(SeenDotDot, path[..][..outpos], s[pos..], f, x, goal);
    var c := path[pos];
    m, p, o, done, g, y := SeenDotDot, pos, outpos, false, f, [];
    assert path[..][..outpos] == path[..outpos];
    if c == SLASH || c == NUL {
      DotDotTakes(path[..outpos], s[pos..], f, goal);
      DotDotPlain(path[..outpos], s[pos..], f, goal);
      o := TakeBack(path, outpos, f);
      g := Take(f, [POINT, POINT]);
      m, p, done := SeenSep, pos + 1, c == NUL;
      assert path[..][..o] == path[..o];
      if !done {
        SepLinked(path[..o], s[pos + 1..], g, goal);
      }
    } else {
      DotDotField(path[..outpos], s[pos..], f, goal);
      Emit(path, outpos, POINT, s, pos - 1);
      Emit(path, outpos + 1, POINT, s, pos);
      m, o, y := InField, outpos + 2, [POINT, POINT];
    }
  }

  lemma XFree(m: Mode, out: string, rest: string, f: Fields, x: string, goal: Fields)
    requires Linked(m, out, rest, f, x, goal) && !m.InField?
    ensures Linked(m, out, rest, f, [], goal)
  {
    hide Buffer, TakeAll;
  }

  lemma SecondDot(out: string, rest: string, f: Fields, goal: Fields)
    requires Linked(SeenDot, out, rest, f, [], goal) && rest != [] && rest[0] == POINT
    ensures Linked(DotDot, out, rest, f, [], goal)
  {
    hide Buffer, TakeAll;
  }

  lemma AllRead(out: string, rest: string, f: Fields, goal: Fields)
    requires Linked(SeenSep, out, rest, f, [], goal) && rest == []
    ensures out == Buffer(goal)
  {
    hide Buffer;
  }

  lemma DotDotPlain(out: string, rest: string, f: Fields, goal: Fields)
    requires Linked(SeenDotDot, out, rest, f, [], goal) && AllPlain(f)
    ensures out == Buffer(f) && AllPlain(Take(f, [POINT, POINT]))
  {
    hide Buffer, TakeAll;
  }

  lemma SepLinked(out: string, rest: string, f: Fields, goal: Fields)
    requires out == Buffer(f) && TakeAll(f, rest) == goal
    ensures Linked(SeenSep, out, rest, f, [], goal)
  {
    hide Buffer, TakeAll;
  }

  /** The steps that write nothing. */
  lemma Turns(out: string, rest: string, f: Fields, goal: Fields)
    ensures Linked(SeenSep, out, rest, f, [], goal) && rest != [] && rest[0] == SLASH ==>
              Linked(SeenSep, out, rest[1..], f, [], goal)
    ensures Linked(SeenSep, out, rest, f, [], goal) && rest != [] && rest[0] != SLASH ==>
              Linked(FieldStart, out, rest, f, [], goal)
    ensures Linked(FieldStart, out, rest, f, [], goal) && rest != [] && rest[0] == POINT ==>
              Linked(Dot, out, rest, f, [], goal)
    ensures Linked(FieldStart, out, rest, f, [], goal) && rest == [] ==> out == Buffer(goal)
  {
    hide Buffer;
  }

  /** One turn of the loop of fs_normalize_path. */
  method Advance(path: array<char>, mode: Mode, pos: nat, outpos: nat, ghost s: string, ghost f: Fields,
                 ghost x: string, ghost goal: Fields)
    returns (m: Mode, p: nat, o: nat, done: bool, ghost g: Fields, ghost y: string)
    requires Standing(path[..], s, mode, pos, outpos, f, x, goal)
    modifies path
    ensures Stepped(path, s, mode, pos, m, p, o, done, g, y, goal)
  {
    hide Buffer, Render, AllPlain, Linked, Take, TakeAll;
    match mode
    case InField =>
      m, p, o, done, g, y := StepInField(path, pos, outpos, s, f, x, goal);
    case Sep =>
      o := StepSep(path, pos, outpos, s, f, x, goal);
      m, p, done, g, y := SeenSep, pos + 1, false, f, x;
    case SeenDot =>
      m, p, o, done, y := StepSeenDot(path, pos, outpos, s, f, x, goal);
      g := f;
    case SeenDotDot =>
      m, p, o, done, g, y := StepSeenDotDot(path, pos, outpos, s, f, x, goal);
    case _ =>
      m, p, done, g, y := StepQuiet(path, mode, pos, outpos, s, f, x, goal);
      o := outpos;
  }

  /** INITIAL, FIELD_START, SEEN_SEP, DOT and DOTDOT */
  method StepQuiet(path: array<char>, mode: Mode, pos: nat, outpos: nat, ghost s: string, ghost f: Fields,
                   ghost x: string, ghost goal: Fields)
    returns (m: Mode, p: nat, done: bool, ghost g: Fields, ghost y: string)
    requires Standing(path[..], s, mode, pos, outpos, f, x, goal)
    requires mode in {Initial, FieldStart, SeenSep, Dot, DotDot}
    ensures Stepped(path, s, mode, pos, m, p, outpos, done, g, y, goal)
  {
    hide Buffer, Render, AllPlain, Linked, Take, TakeAll;
    Reading(path[..], s, mode, pos, outpos, f, x, goal);
    XFree(mode, path[..][..outpos], s[pos..], f, x, goal);
    var c := path[pos];
    m, p, done, g, y := mode, pos, false, f, [];
    ghost var out, rest := path[..outpos], s[pos..];
    assert path[..][..outpos] == out;
    Turns(out, rest, f, goal);
    DotMoves(out, rest, f, goal);
    match mode
    case Initial =>
      EmptyOut(out, rest, f, goal);
      g := StartLinked(rest, f, goal);
      m := if c == SLASH then Sep else if c == POINT then Dot else FieldStart;
    case FieldStart =>
      if c == POINT {
        m := Dot;
      } else if c == NUL {
        done := true;
      } else {
        m := InField;
        FieldBegins(out, rest, f, goal);
      }
    case SeenSep =>
      if c == SLASH {
        p := pos + 1;
      } else if c == NUL {
        done := true;
        AllRead(out, rest, f, goal);
      } else {
        m := FieldStart;
      }
    case Dot =>
      NotAtEnd(Dot, out, rest, f, goal);
      m, p := SeenDot, pos + 1;
    case DotDot =>
      NotAtEnd(DotDot, out, rest, f, goal);
      m, p := SeenDotDot, pos + 1;
  }

  lemma EmptyOut(out: string, rest: string, f: Fields, goal: Fields)
    requires Linked(Initial, out, rest, f, [], goal)
    ensures out == []
  {
    hide Buffer, TakeAll;
  }

  lemma NotAtEnd(m: Mode, out: string, rest: string, f: Fields, goal: Fields)
    requires Linked(m, out, rest, f, [], goal) && (m.Dot? || m.DotDot?)
    ensures rest != []
  {
    hide Buffer, TakeAll;
  }

  /** fs_normalize_path: what it writes is the normal form, it never lengthens the path and
      never writes past where it has read. */
  method NormalizePath(path: array<char>, ghost n: nat)
    requires n < path.Length && path[n] == NUL && NUL !in path[..n]
    modifies path
    ensures |Normal(old(path[..n]))| <= n
    ensures path[..|Normal(old(path[..n]))| + 1] == Normal(old(path[..n])) + [NUL]
    ensures path[n + 1..] == old(path[n + 1..])
  {
    hide Buffer, Render, TakeAll, Linked, Take, Plain, AllPlain;
    ghost var s := path[..n];
    ghost var goal := TakeAll(Fields(s != [] && s[0] == SLASH, []), s);
    ghost var f, x: string := Fields(false, []), [];
    var mode, pos: nat, outpos: nat, done := Initial, 0, 0, false;
    Begins(path[..], s, f, goal);
    while !done
      invariant !done ==> Standing(path[..], s, mode, pos, outpos, f, x, goal)
      invariant done ==> outpos <= n && (path[..outpos] == Buffer(goal) || path[..outpos] == Render(goal))
      invariant path[n + 1..] == old(path[n + 1..]) && pos <= n + 1
      decreases n + 1 - pos, Rank(mode), !done
    {
      mode, pos, outpos, done, f, x := Advance(path, mode, pos, outpos, s, f, x, goal);
    }
    GoalPlain(s);
    var q := Finish(path, outpos, goal);
    assert path[n + 1..] == path[outpos + 1..][n - outpos..];
  }

  lemma Begins(b: string, s: string, f: Fields, goal: Fields)
    requires |s| < |b| && b[..|s|] == s && b[|s|] == NUL && NUL !in s && f == Fields(false, [])
    requires goal == TakeAll(Fields(s != [] && s[0] == SLASH, []), s)
    ensures Standing(b, s, Initial, 0, 0, f, [], goal)
  {
    hide TakeAll;
    assert s[0..] == s && b[..0] == [];
    assert b[0..|s| + 1] == b[..|s|] + [b[|s|]];
  }

  lemma GoalPlain(s: string)
    ensures AllPlain(TakeAll(Fields(s != [] && s[0] == SLASH, []), s))
  {
    hide Render, Buffer;
    TakenFits(Fields(s != [] && s[0] == SLASH, []), s);
  }
}
