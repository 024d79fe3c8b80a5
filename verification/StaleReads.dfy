/** Two histories that are not harmless, on a directory of names: the second listing is stale. */
module StaleReads {
  import opened Options
  import opened Json
  import opened JsonRoundTrip
  import opened JsonCanonical
  import opened ToolCache
  import opened CachedLoop

  /** The names in a directory, in the order they are listed. */
  type Names = seq<Text>

  function Listing(names: Names): Json {
    Arr(seq(|names|, i requires 0 <= i < |names| => Str(names[i])))
  }

  /** After `from` was renamed to `to`; what was called `to` before is replaced. */
  function Moved(names: Names, from: Text, to: Text): Names {
    if names == [] then []
    else
      (if names[0] == from then [to] else if names[0] == to then [] else [names[0]]) + Moved(names[1..], from, to)
  }

  function ActionOf(args: Json): Text {
    Lower(Argument(args, "action", "list"))
  }

  function Failed(message: string): Outcome {
    Outcome(true, true, true, Ascii(message))
  }

  function Succeeded(text: Text): Outcome {
    Outcome(true, false, true, text)
  }

  /** The `files` tool on one directory, with `list` and `rename` as its only actions. */
  function Directory(names: Names, args: Json): (Names, Outcome) {
    if ActionOf(args) == Ascii("list") then (names, Succeeded(Print(Listing(names))))
    else if ActionOf(args) == Ascii("rename") then
      var from, to := Argument(args, "from", ""), Argument(args, "to", "");
      if from == [] || to == [] then (names, Failed("from and to required"))
      else if from !in names then (names, Failed("ENOENT"))
      else (Moved(names, from, to), Succeeded(to))
    else (names, Failed("unknown action"))
  }

  lemma ReadingChangesNothing(names: Names, args: Json)
    requires Cacheable("files", args)
    ensures Directory(names, args).0 == names
  {
    assert |ActionOf(args)| == 4 && |Ascii("rename")| == 6;
  }

  lemma SameNamedArguments(a: Json, b: Json)
    requires Proper(a) && Proper(b) && SameValue(ByPropertyOrder, Given(a), Given(b))
    ensures ActionOf(a) == ActionOf(b)
    ensures Argument(a, "from", "") == Argument(b, "from", "") && Argument(a, "to", "") == Argument(b, "to", "")
  {
    EqualTextIffSameValue(ByPropertyOrder, Given(a), Given(b));
    assert |PROTO| == 9 && |Ascii("action")| == 6 && |Ascii("from")| == 4 && |Ascii("to")| == 2;
    ArgumentByKey(a, b, "action", "list");
    ArgumentByKey(a, b, "from", "");
    ArgumentByKey(a, b, "to", "");
  }

  lemma ReadsByKey(names: Names, a: Json, b: Json)
    requires ActionOf(a) == ActionOf(b)
    requires Argument(a, "from", "") == Argument(b, "from", "") && Argument(a, "to", "") == Argument(b, "to", "")
    ensures Directory(names, a) == Directory(names, b)
  {
  }

  lemma DirectoryIsWellBehaved()
    ensures WellBehaved(Directory)
  {
    forall names, args | Cacheable("files", args)
      ensures Directory(names, args).0 == names
    {
      ReadingChangesNothing(names, args);
    }
    forall names, a, b | Proper(a) && Proper(b) && SameValue(ByPropertyOrder, Given(a), Given(b))
      ensures Directory(names, a) == Directory(names, b)
    {
      SameNamedArguments(a, b);
      ReadsByKey(names, a, b);
    }
  }

  const LIST := Obj([Field(Ascii("action"), Str(Ascii("list")))])

  lemma ListAnswers(names: Names)
    ensures Proper(LIST) && Cacheable("files", LIST)
    ensures Directory(names, LIST) == (names, Succeeded(Print(Listing(names))))
  {
    assert FieldOf(LIST.fields, Ascii("action")) == Some(Str(Ascii("list")));
    assert Ascii("list") != [] && Lower(Ascii("list")) == Ascii("list");
  }

  function RenameArgs(from: Text, to: Text): Json {
    Obj([Field(Ascii("action"), Str(Ascii("rename"))), Field(Ascii("from"), Str(from)), Field(Ascii("to"), Str(to))])
  }

  lemma RenameIsGiven(from: Text, to: Text)
    requires from != [] && to != []
    ensures var args := RenameArgs(from, to);
            && Proper(args) && ActionOf(args) == Ascii("rename") && !Mutating(args)
            && Argument(args, "from", "") == from && Argument(args, "to", "") == to
  {
    var args := RenameArgs(from, to);
    assert |Ascii("action")| == 6 && |Ascii("from")| == 4 && |Ascii("to")| == 2;
    assert FieldOf(args.fields, Ascii("action")) == Some(Str(Ascii("rename")));
    assert args.fields[1..][0].key == Ascii("from") && args.fields[1..][1..][0].key == Ascii("to");
    assert FieldOf(args.fields, Ascii("from")) == FieldOf(args.fields[1..], Ascii("from")) == Some(Str(from));
    assert FieldOf(args.fields, Ascii("to")) == FieldOf(args.fields[1..], Ascii("to"))
        == FieldOf(args.fields[1..][1..], Ascii("to")) == Some(Str(to));
    var rename := Ascii("rename");
    assert |rename| == 6 && rename[0] == 0x72 && Lower(rename) == rename;
    assert |Ascii("write")| == 5 && Ascii("delete")[0] == 0x64;
  }

  lemma RenameAnswers(from: Text, to: Text)
    requires from != [] && to != []
    ensures Proper(RenameArgs(from, to)) && !Mutating(RenameArgs(from, to))
    ensures Directory([from], RenameArgs(from, to)) == ([to], Succeeded(to))
  {
    RenameIsGiven(from, to);
    MovedIsOther(from, to);
    assert |Ascii("rename")| == 6 && |Ascii("list")| == 4;
  }

  lemma MovedIsOther(from: Text, to: Text)
    ensures Moved([from], from, to) == [to]
  {
    assert [from][1..] == [];
    assert Moved([from], from, to) == [to] + Moved([], from, to);
  }

  lemma ListingsDiffer(from: Text, to: Text)
    requires from != to
    ensures Print(Listing([from])) != Print(Listing([to]))
  {
    assert Listing([from]).items[0] == Str(from) && Listing([to]).items[0] == Str(to);
    if Print(Listing([from])) == Print(Listing([to])) {
      PrintInjective(Listing([from]), Listing([to]));
    }
  }

  /** List, a call that renames without dropping stored answers, list: the second list is the first one again. */
  method MoveGoesUnseen(from: Text, to: Text, act: Call<Names>) returns (before: Outcome, done: Outcome, after: Outcome)
    requires from != to && Sound(act) && Direct(Directory, [from], act).0 == [to]
    requires !Invalidates(act, Direct(Directory, [from], act).1)
    ensures before == after == Succeeded(Print(Listing([from])))
    ensures Directory([to], LIST).1 == Succeeded(Print(Listing([to]))) != after
    ensures Promised(act) ==> done == Direct(Directory, [from], act).1
  {
    DirectoryIsWellBehaved();
    ListAnswers([from]);
    ListAnswers([to]);
    ListingsDiffer(from, to);
    var list := Call("files", LIST, act.now, act.other);
    before, done, after := ReadActRead(Directory, [from], 1, list, act, list);
  }

  /** List, rename, list: only write and delete drop stored answers. */
  method RenameGoesUnseen(from: Text, to: Text, now: int) returns (before: Outcome, done: Outcome, after: Outcome)
    requires from != [] && to != [] && from != to
    ensures before == after == Succeeded(Print(Listing([from]))) && done == Succeeded(to)
    ensures Directory([from], RenameArgs(from, to)).0 == [to] && Directory([to], LIST).1 != after
  {
    RenameAnswers(from, to);
    var rename := Call("files", RenameArgs(from, to), now, (names: Names) => (names, Succeeded([])));
    before, done, after := MoveGoesUnseen(from, to, rename);
  }

  /** List, a shell command that renames, list: calls of other tools drop nothing at all. */
  method ShellGoesUnseen(from: Text, to: Text, command: Json, now: int)
    returns (before: Outcome, done: Outcome, after: Outcome)
    requires from != to && Proper(command)
    ensures before == after == Succeeded(Print(Listing([from]))) && done == Succeeded([])
    ensures Directory([to], LIST).1 != after
  {
    MovedIsOther(from, to);
    var shell := Call("shell", command, now, (names: Names) => (Moved(names, from, to), Succeeded([])));
    before, done, after := MoveGoesUnseen(from, to, shell);
  }
}
