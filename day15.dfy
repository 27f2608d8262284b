/** Day 15: the HASH fold over comma-separated initialization steps. */
module Day15Hash {
  import opened Prelude

  /** `fold(acc, |acc, code| ((acc + code) * 17) % 256)` over the codes of `s`. */
  function HashFrom(acc: nat, s: string): (h: nat)
    ensures s != [] ==> h < 256
    ensures s == [] ==> h == acc
    decreases s
  {
    if s == [] then acc else HashFrom(((acc + s[0] as nat) * 17) % 256, s[1..])
  }

  /** The characters of a step other than '\n'. */
  function DropNewlines(s: string): (r: string)
    ensures '\n' !in r
  {
    Remove(s, '\n')
  }

  /** `calc_hash`: newlines are filtered out, the remaining codes are folded from 0. */
  function Hash(step: string): nat {
    HashFrom(0, DropNewlines(step))
  }

  /** Folding over a concatenation folds over the second part from the first's result. */
  lemma {:induction false} HashFromAppend(acc: nat, a: string, b: string)
    ensures HashFrom(acc, a + b) == HashFrom(HashFrom(acc, a), b)
    decreases a
  {
    if a != [] {
      assert (a + b)[1..] == a[1..] + b;
      HashFromAppend(((acc + a[0] as nat) * 17) % 256, a[1..], b);
    } else {
      assert a + b == b;
    }
  }

  lemma {:induction false} RemoveAppend(a: string, b: string, c: char)
    ensures Remove(a + b, c) == Remove(a, c) + Remove(b, c)
  {
    if a != [] {
      assert (a + b)[1..] == a[1..] + b;
      RemoveAppend(a[1..], b, c);
    } else {
      assert a + b == b;
    }
  }

  /** Every hash is a byte value, and the empty step hashes to 0. */
  lemma {:induction false} HashRange(step: string)
    ensures Hash(step) < 256
    ensures step == "" ==> Hash(step) == 0
  {
  }

  /** A newline anywhere in a step leaves its hash unchanged. */
  lemma {:induction false} HashIgnoresNewline(a: string, b: string)
    ensures Hash(a + "\n" + b) == Hash(a + b)
  {
    RemoveAppend(a + "\n", b, '\n');
    RemoveAppend(a, "\n", '\n');
    RemoveAppend(a, b, '\n');
    assert Remove("\n", '\n') == "";
    assert Remove(a, '\n') + "" == Remove(a, '\n');
  }

  /** Appending one character to a step performs one more round of the fold. */
  lemma {:induction false} HashSnoc(step: string, c: char)
    requires c != '\n'
    ensures Hash(step + [c]) == ((Hash(step) + c as nat) * 17) % 256
  {
    RemoveAppend(step, [c], '\n');
    assert Remove([c], '\n') == [c];
    HashFromAppend(0, DropNewlines(step), [c]);
  }

  function HashAll(steps: seq<string>): nat {
    if steps == [] then 0 else Hash(steps[0]) + HashAll(steps[1..])
  }

  /** `part_one`: the sum of the hashes of the comma-separated steps. */
  function PartOne(input: string): (r: nat)
    ensures r <= 255 * |SplitChar(input, ',')|
  {
    HashAllBound(SplitChar(input, ','));
    HashAll(SplitChar(input, ','))
  }

  lemma {:induction false} HashAllBound(steps: seq<string>)
    ensures HashAll(steps) <= 255 * |steps|
  {
    if steps != [] {
      HashRange(steps[0]);
      HashAllBound(steps[1..]);
    }
  }

  /** Text without a comma is a single step. */
  lemma {:induction false} PartOneSingleStep(input: string)
    requires ',' !in input
    ensures PartOne(input) == Hash(input)
  {
    SplitCharAbsent(input, ',');
    assert HashAll([input]) == Hash(input) + HashAll([]);
  }
}
