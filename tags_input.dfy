/** components/misc/tags-input.tsx: a controlled tag editor. The tag list
    belongs to the parent and arrives with every call; the editor owns only
    the text being typed and reports a new list through `onChange`, which
    the model returns as `Some(list)` ("nothing emitted" is `None`). */
module TagsInput {
  import opened Wrappers
  import opened Strings

  /** No tag occurs twice. */
  predicate NoDuplicates(tags: seq<string>)
  {
    forall i, j :: 0 <= i < j < |tags| ==> tags[i] != tags[j]
  }

  /** Every tag is non-empty and has no whitespace at either end. */
  predicate AllTrimmed(tags: seq<string>)
  {
    forall i :: 0 <= i < |tags| ==> tags[i] != [] && IsTrimmed(tags[i])
  }

  /** What a key press leaves behind: the new input text, and the list
      handed to `onChange`, if any. */
  datatype KeyResult = KeyResult(input: string, emitted: Option<seq<string>>)

  /** Enter or "," with some non-blank input. */
  predicate Commits(key: string, input: string)
  {
    (key == "Enter" || key == ",") && Trim(input) != []
  }

  /** Backspace on an exactly empty input with at least one tag. */
  predicate Pops(key: string, input: string, tags: seq<string>)
  {
    key == "Backspace" && input == "" && |tags| > 0
  }

  /** `handleKeyDown` (tags-input.tsx:31-56). */
  function KeyDown(key: string, input: string, tags: seq<string>, disabled: bool): (r: KeyResult)
    ensures disabled || (!Commits(key, input) && !Pops(key, input, tags)) ==> r == KeyResult(input, None)
    ensures !disabled && Commits(key, input) ==>
      && r.input == ""
      && (r.emitted.Some? <==> Trim(input) !in tags)
      && (r.emitted.Some? ==> r.emitted.value == tags + [Trim(input)])
    ensures !disabled && Pops(key, input, tags) ==>
      && r.input == input
      && r.emitted == Some(tags[..|tags| - 1])
  {
    if disabled then KeyResult(input, None)
    else
      var trimmed := Trim(input);
      if (key == "Enter" || key == ",") && |trimmed| > 0 then
        KeyResult("", if trimmed !in tags then Some(tags + [trimmed]) else None)
      else if key == "Backspace" && input == "" && |tags| > 0 then
        KeyResult(input, Some(tags[..|tags| - 1]))
      else
        KeyResult(input, None)
  }

  /** A list emitted by a key press is duplicate-free when the tags were,
      whether or not they were trimmed. */
  lemma KeyDownKeepsNoDuplicates(key: string, input: string, tags: seq<string>, disabled: bool)
    requires NoDuplicates(tags)
    ensures var r := KeyDown(key, input, tags, disabled);
      r.emitted.Some? ==> NoDuplicates(r.emitted.value)
  {
  }

  /** A list emitted by a key press holds only non-empty tags without
      surrounding whitespace when the tags did. */
  lemma KeyDownKeepsTrimmed(key: string, input: string, tags: seq<string>, disabled: bool)
    requires AllTrimmed(tags)
    ensures var r := KeyDown(key, input, tags, disabled);
      r.emitted.Some? ==> AllTrimmed(r.emitted.value)
  {
  }

  /** Committing a tag and then pressing Backspace on the now empty input
      gives back the list the tag was added to. */
  lemma BackspaceUndoesCommit(key: string, input: string, tags: seq<string>)
    requires Commits(key, input) && Trim(input) !in tags
    ensures var r := KeyDown(key, input, tags, false);
      var r2 := KeyDown("Backspace", r.input, r.emitted.value, false);
      r2 == KeyResult("", Some(tags))
  {
  }

  /** `tags.filter(tag => tag !== t)`: the tags other than `t`, in order. */
  function Without(tags: seq<string>, t: string): (r: seq<string>)
    ensures t !in r
    ensures forall x :: x in r <==> x in tags && x != t
    ensures |r| <= |tags|
    ensures t !in tags ==> r == tags
  {
    if tags == [] then []
    else if tags[0] == t then Without(tags[1..], t)
    else [tags[0]] + Without(tags[1..], t)
  }

  /** Filtering distributes over concatenation, so it keeps the relative
      order of the surviving tags. */
  lemma {:induction false} WithoutAppend(a: seq<string>, b: seq<string>, t: string)
    ensures Without(a + b, t) == Without(a, t) + Without(b, t)
  {
    if a == [] {
      assert a + b == b;
    } else {
      assert (a + b)[0] == a[0];
      assert (a + b)[1..] == a[1..] + b;
      WithoutAppend(a[1..], b, t);
    }
  }

  /** `removeTag` (tags-input.tsx:58-65): nothing when disabled; otherwise
      the list without any occurrence of the tag. */
  function RemoveTag(tags: seq<string>, t: string, disabled: bool): (r: Option<seq<string>>)
    ensures disabled <==> r.None?
    ensures r.Some? ==> r.value == Without(tags, t)
  {
    if disabled then None else Some(Without(tags, t))
  }

  /** Removing a tag that was just committed restores the list it was
      added to. */
  lemma RemoveUndoesCommit(key: string, input: string, tags: seq<string>)
    requires Commits(key, input) && Trim(input) !in tags
    ensures var r := KeyDown(key, input, tags, false);
      RemoveTag(r.emitted.value, Trim(input), false) == Some(tags)
  {
    var t := Trim(input);
    var r := KeyDown(key, input, tags, false);
    assert r.emitted.value == tags + [t];
    WithoutAppend(tags, [t], t);
    assert [t][1..] == [];
    assert Without([t], t) == [];
    assert Without(tags, t) == tags;
    assert Without(tags + [t], t) == tags;
  }

  /** The editor's own state: the text being typed. */
  class Editor {
    var inputValue: string

    constructor ()
      ensures inputValue == ""
    {
      inputValue := "";
    }

    /** `handleInputChange` (tags-input.tsx:24-29). */
    method HandleInputChange(value: string)
      modifies this
      ensures inputValue == value
    {
      inputValue := value;
    }

    /** `handleKeyDown` on the current input: updates the text and returns
        what is handed to `onChange`. */
    method HandleKeyDown(key: string, tags: seq<string>, disabled: bool) returns (emitted: Option<seq<string>>)
      modifies this
      ensures KeyResult(inputValue, emitted) == KeyDown(key, old(inputValue), tags, disabled)
    {
      if disabled {
        return None;
      }
      var trimmed := Trim(inputValue);
      if (key == "Enter" || key == ",") && |trimmed| > 0 {
        emitted := if trimmed !in tags then Some(tags + [trimmed]) else None;
        inputValue := "";
      } else if key == "Backspace" && inputValue == "" && |tags| > 0 {
        emitted := Some(tags[..|tags| - 1]);
      } else {
        emitted := None;
      }
    }
  }
}
