/** The console's line discipline (kernel/console.c): a ring of 128 bytes with three 32-bit
    indices, against an editor that keeps its lines in lists. */
module Console {

  const SIZE: nat := 128
  const WRAP: nat := 0x1_0000_0000
  const NL: int := 10
  const CR: int := 13
  const CTRL_D: int := 4
  const CTRL_H: int := 8
  const CTRL_P: int := 16
  const CTRL_U: int := 21
  const DEL: int := 127

  // ---- the editor ----

  // done: every byte of every finished line so far; line: the one being edited.
  datatype Editor = Editor(done: seq<int>, line: seq<int>)

  // What one key does when used of the finished bytes have been read.
  ghost function Key(ed: Editor, used: nat, c: int): (r: Editor) {
    if c == CTRL_P || c == 0 then ed
    else if c == CTRL_U then ed.(line := [])
    else if c == CTRL_H || c == DEL then if ed.line == [] then ed else ed.(line := ed.line[..|ed.line| - 1])
    else if |ed.done| + |ed.line| - used >= SIZE then ed
    else
      var line := ed.line + [if c == CR then NL else c];
      if Ends(line) || |ed.done| + |line| - used == SIZE then Editor(ed.done + line, []) else ed.(line := line)
  }

  ghost predicate Ends(line: seq<int>)
    requires line != []
  {
    line[|line| - 1] == NL || line[|line| - 1] == CTRL_D
  }

  ghost predicate Plain(line: seq<int>) {
    forall i :: 0 <= i < |line| ==> line[i] != NL && line[i] != CTRL_D
  }

  /** Finished text only grows, and an unfinished line holds no end of line or end of file. */
  lemma KeyKeeps(ed: Editor, used: nat, c: int)
    requires Plain(ed.line)
    ensures ed.done <= Key(ed, used, c).done && Plain(Key(ed, used, c).line)
  {
  }

  // ---- indices ----

  lemma SlotOf(n: nat)
    ensures (n % WRAP) % SIZE == n % SIZE
  {
  }

  lemma SlotsDiffer(i: nat, j: nat)
    requires i < j < i + SIZE
    ensures i % SIZE != j % SIZE
  {
  }

  /** 32-bit differences and equality are those of the full counts while these are close. */
  lemma Distance(r: nat, e: nat)
    requires r <= e <= r + SIZE
    ensures (e % WRAP - r % WRAP) % WRAP == e - r
    ensures e % WRAP == r % WRAP <==> e == r
  {
  }

  function Inc(x: nat): (y: nat)
    ensures y < WRAP
  {
    (x + 1) % WRAP
  }

  function Dec(x: nat): (y: nat)
    ensures y < WRAP
  {
    (x - 1) % WRAP
  }

  lemma IncDec(n: nat)
    ensures Inc(n % WRAP) == (n + 1) % WRAP && (n > 0 ==> Dec(n % WRAP) == (n - 1) % WRAP)
  {
  }

  ghost predicate HoldsAt(ring: seq<int>, text: seq<int>, i: nat) {
    |ring| == SIZE && i < |text| && ring[i % SIZE] == text[i]
  }

  // The ring holds bytes lo.. of the text.
  ghost predicate Holds(ring: seq<int>, text: seq<int>, lo: nat) {
    |ring| == SIZE && forall i {:trigger HoldsAt(ring, text, i)} :: lo <= i < |text| ==> HoldsAt(ring, text, i)
  }

  lemma HoldsLess(ring: seq<int>, text: seq<int>, lo: nat, n: nat)
    requires Holds(ring, text, lo) && n <= |text|
    ensures Holds(ring, text[..n], lo)
  {
    forall i | lo <= i < n ensures HoldsAt(ring, text[..n], i) {
      assert HoldsAt(ring, text, i);
    }
  }

  lemma HoldsMore(ring: seq<int>, text: seq<int>, lo: nat, c: int)
    requires Holds(ring, text, lo) && lo <= |text| < lo + SIZE
    ensures Holds(ring[|text| % SIZE := c], text + [c], lo)
  {
    var ring' := ring[|text| % SIZE := c];
    forall i | lo <= i < |text| + 1 ensures HoldsAt(ring', text + [c], i) {
      if i < |text| {
        SlotsDiffer(i, |text|);
        assert HoldsAt(ring, text, i);
      }
    }
  }

  lemma Appended(text: seq<int>, done: nat, c: int)
    requires done <= |text|
    ensures var t := text + [c];
            t[done..] == text[done..] + [c] && t[..done] == text[..done] && t[..|t|] == text[..done] + (text[done..] + [c]) && t[|t|..] == []
  {
  }

  // What a reader meets: nothing to read, end of file, a bad user address, or a byte.
  datatype How = Empty | Eof | Fault | Got(c: int)

  class Console {
    const buf: array<int>
    var r: nat
    var w: nat
    var e: nat
    ghost var text: seq<int>   // every byte up to the edit index
    ghost var used: nat        // bytes before the read index
    ghost var done: nat        // bytes before the write index

    ghost predicate Valid()
      reads this, buf
    {
      && used <= done <= |text| <= used + SIZE
      && r == used % WRAP && w == done % WRAP && e == |text| % WRAP
      && buf.Length == SIZE && Holds(buf[..], text, used)
      && Plain(text[done..])
    }

    ghost function Ed(): (e: Editor)
      reads this
    {
      if done <= |text| then Editor(text[..done], text[done..]) else Editor([], [])
    }

    constructor ()
      ensures Valid() && fresh(buf) && Ed() == Editor([], []) && used == 0
    {
      buf := new int[128];
      r, w, e := 0, 0, 0;
      text, used, done := [], 0, 0;
    }

    // One step back of the edit index.
    method Erase()
      requires Valid() && done < |text|
      modifies this`e, this`text
      ensures Valid() && text == old(text)[..|old(text)| - 1]
    {
      IncDec(|text|);
      HoldsLess(buf[..], text, used, |text| - 1);
      e := Dec(e);
      text := text[..|text| - 1];
      assert text[done..] == old(text[done..])[..|text| - done];
    }

    // The last byte of an unfinished line is not a newline.
    lemma LastIsPlain()
      requires Valid()
      ensures e != w <==> done < |text|
      ensures done < |text| ==> buf[Dec(e) % SIZE] == text[|text| - 1] != NL
    {
      Distance(done, |text|);
      if done < |text| {
        SlotOf(|text| - 1);
        IncDec(|text|);
        assert HoldsAt(buf[..], text, |text| - 1);
        assert text[done..][|text| - 1 - done] == text[|text| - 1];
      }
    }

    // ^U: the test for a newline never stops it before the line is gone.
    method KillLine()
      requires Valid()
      modifies this`e, this`text
      ensures Valid() && Ed() == old(Ed()).(line := [])
    {
      LastIsPlain();
      while e != w && buf[Dec(e) % SIZE] != NL
        invariant Valid() && text[..done] == old(text[..done])
        invariant e != w <==> done < |text|
        invariant done < |text| ==> buf[Dec(e) % SIZE] != NL
        decreases |text|
      {
        Erase();
        LastIsPlain();
      }
    }

    // A byte goes into the ring and the edit index moves on.
    method Put(c: int)
      requires Valid() && |text| < used + SIZE
      modifies this`e, this`text, buf
      ensures buf.Length == SIZE && text == old(text) + [c] && e == |text| % WRAP && Holds(buf[..], text, used)
    {
      SlotOf(|text|);
      IncDec(|text|);
      HoldsMore(buf[..], text, used, c);
      ghost var ring := buf[..][|text| % SIZE := c];
      buf[e % SIZE] := c;
      assert buf[..] == ring;
      e := Inc(e);
      text := text + [c];
    }

    // A byte that is kept: the default case, once there is room for it.
    method Store(c: int)
      requires Valid() && |text| < used + SIZE
      modifies this`e, this`w, this`text, this`done, buf
      ensures Valid() && used == old(used)
      ensures var line := old(text[done..]) + [c];
              Ed() == if Ends(line) || |old(text)| + 1 - used == SIZE then Editor(old(text[..done]) + line, []) else Editor(old(text[..done]), line)
    {
      Appended(text, done, c);
      Put(c);
      Distance(used, |text|);
      if c == NL || c == CTRL_D || (e - r) % WRAP == SIZE {
        w := e;
        done := |text|;
      }
    }

    // consoleintr does what the editor does.
    method Intr(c: int)
      requires Valid()
      modifies this`e, this`w, this`text, this`done, buf
      ensures Valid() && Ed() == Key(old(Ed()), used, c)
    {
      if c == CTRL_P {
      } else if c == CTRL_U {
        KillLine();
      } else if c == CTRL_H || c == DEL {
        Distance(done, |text|);
        if e != w {
          Erase();
        }
      } else {
        Distance(used, |text|);
        if c != 0 && (e - r) % WRAP < SIZE {
          Store(if c == CR then NL else c);
        }
      }
    }

    // The bytes a reader can have now.
    ghost function Pending(): (bytes: seq<int>)
      reads this
    {
      if used <= done <= |text| then text[used..done] else []
    }

    /** What has been read, followed by what can be read, is what the editor has finished. */
    lemma ReadThenPending()
      requires Valid()
      ensures text[..used] + Pending() == Ed().done
    {
      assert text[..used] + text[used..done] == text[..done];
    }

    // Take the next byte.
    method Take() returns (c: int)
      requires Valid() && used < done
      modifies this`r, this`used
      ensures Valid() && used == old(used) + 1 && c == text[old(used)]
    {
      SlotOf(used);
      IncDec(used);
      assert HoldsAt(buf[..], text, used);
      c := buf[r % SIZE];
      r := Inc(r);
      used := used + 1;
    }

    // Put it back.
    method PutBack()
      requires Valid() && used > 0 && |text| < used + SIZE && HoldsAt(buf[..], text, used - 1)
      modifies this`r, this`used
      ensures Valid() && used == old(used) - 1
    {
      IncDec(used);
      r := Dec(r);
      used := used - 1;
    }

    // After `out` the reader wants more and there is nothing: where consoleread sleeps.
    ghost predicate Dry(out: seq<int>, n: nat, from: nat)
      reads this
    {
      used == done && |out| < n && used == from + |out| && (out != [] ==> out[|out| - 1] != NL)
    }

    /** consoleread of target bytes, with n still to come, until it returns or has to sleep.
        fails tells the byte at which copying out to the user fails; a killed reader does not
        sleep but returns -1. */
    method Read(target: nat, n: nat, fails: int, isKilled: bool) returns (out: seq<int>, finished: bool, result: int)
      requires Valid() && n <= target
      modifies this`r, this`used
      ensures Valid() && old(used) <= used
      ensures |out| <= n && old(used) + |out| <= used <= old(used) + |out| + 1 && out == text[old(used)..old(used) + |out|]
      ensures Plain(if out != [] && out[|out| - 1] == NL then out[..|out| - 1] else out)
      ensures !finished <==> Dry(out, n, old(used)) && !isKilled
      ensures result == if Dry(out, n, old(used)) then -1 else target - (n - |out|)
      ensures || Dry(out, n, old(used))
              || |out| == n
              || (out != [] && out[|out| - 1] == NL)
              || fails == |out|
              || (old(used) + |out| < done && text[old(used) + |out|] == CTRL_D)
      ensures used == old(used) + |out| + 1 ==>
                fails == |out| || (text[old(used) + |out|] == CTRL_D && |out| == 0 && n == target)
      ensures |out| < n && (out == [] || out[|out| - 1] != NL) && old(used) + |out| < done && text[old(used) + |out|] == CTRL_D ==>
                finished && used == old(used) + |out| + (if |out| == 0 && n == target then 1 else 0)
    {
      out, finished := [], true;
      while |out| < n
        invariant Valid() && |out| <= n && used == old(used) + |out| && out == text[old(used)..used] && Plain(out)
        decreases n - |out|
      {
        var how := Next(n - |out| < target, |out| == fails);
        if how == Empty {
          return out, isKilled, -1;
        }
        if how == Eof || how == Fault {
          break;
        }
        out := out + [how.c];
        if how.c == NL {
          assert out[..|out| - 1] == old(text)[old(used)..used - 1];
          break;
        }
      }
      result := target - (n - |out|);
    }

    // One round of consoleread's loop; ^D is put back if something was read before it.
    method Next(early: bool, fault: bool) returns (how: How)
      requires Valid()
      modifies this`r, this`used
      ensures Valid()
      ensures how == Empty <==> old(used) == done
      ensures how == Empty ==> used == old(used)
      ensures old(used) < done ==>
                how == if text[old(used)] == CTRL_D then Eof else if fault then Fault else Got(text[old(used)])
      ensures old(used) < done ==> used == old(used) + if how == Eof && early then 0 else 1
    {
      Distance(used, done);
      if r == w {
        return Empty;
      }
      assert HoldsAt(buf[..], text, used);
      var c := Take();
      if c == CTRL_D {
        if early {
          PutBack();
        }
        return Eof;
      }
      return if fault then Fault else Got(c);
    }
  }
}
