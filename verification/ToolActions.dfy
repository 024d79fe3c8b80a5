/** Which calls the cache answers and which drop what it holds, said on the words in the arguments. */
module ToolActions {
  import opened Options
  import opened Json
  import opened JsonCanonical
  import opened ToolCache

  const ACTION: Text := [0x61, 0x63, 0x74, 0x69, 0x6f, 0x6e]
  const METHOD: Text := [0x6d, 0x65, 0x74, 0x68, 0x6f, 0x64]
  const LIST: Text := [0x6c, 0x69, 0x73, 0x74]
  const STAT: Text := [0x73, 0x74, 0x61, 0x74]
  const READ: Text := [0x72, 0x65, 0x61, 0x64]
  const WRITE: Text := [0x77, 0x72, 0x69, 0x74, 0x65]
  const DELETE: Text := [0x64, 0x65, 0x6c, 0x65, 0x74, 0x65]
  const POST: Text := [0x50, 0x4f, 0x53, 0x54]

  /** The text is the word in letters of either case. */
  predicate Spells(s: Text, word: Text) {
    |s| == |word| && forall k | 0 <= k < |s| ::
      s[k] == word[k] || SameLetter(s[k], word[k]) || SameLetter(word[k], s[k])
  }

  /** An upper-case letter and its lower-case one. */
  predicate SameLetter(upper: Unit, lower: Unit) {
    0x41 <= upper <= 0x5a && lower == upper + 0x20
  }

  /** The argument object has this field with this word as its text. */
  predicate Says(args: Json, key: Text, word: Text) {
    args.Obj? && exists i | 0 <= i < |args.fields| ::
      args.fields[i].key == key && args.fields[i].value.Str? && Spells(args.fields[i].value.s, word)
  }

  /** The values that count as no argument: null, false, zero and the empty text. */
  predicate Void(v: Json) {
    v in {Null, Bool(false), Num([0x30]), Str([])}
  }

  /** No such field, or a void one. */
  predicate Silent(args: Json, key: Text) {
    !args.Obj? || forall i | 0 <= i < |args.fields| && args.fields[i].key == key :: Void(args.fields[i].value)
  }

  /** If the field is there, it holds a text, or it is void. */
  predicate Worded(args: Json, key: Text) {
    args.Obj? ==> forall i | 0 <= i < |args.fields| && args.fields[i].key == key ::
      args.fields[i].value.Str? || Void(args.fields[i].value)
  }

  /** A `files` call whose action is `write` or `delete`. */
  predicate WritesOrDeletes(args: Json) {
    Says(args, ACTION, WRITE) || Says(args, ACTION, DELETE)
  }

  predicate Reads(args: Json) {
    Says(args, ACTION, LIST) || Says(args, ACTION, STAT) || Says(args, ACTION, READ)
  }

  lemma Words()
    ensures Ascii("action") == ACTION && Ascii("method") == METHOD && Ascii("POST") == POST
    ensures Ascii("list") == LIST && Ascii("stat") == STAT && Ascii("read") == READ
    ensures Ascii("write") == WRITE && Ascii("delete") == DELETE
  {
  }

  lemma LowerSpells(s: Text, word: Text)
    requires forall k | 0 <= k < |word| :: 0x61 <= word[k] <= 0x7a
    ensures Lower(s) == word <==> Spells(s, word)
  {
    if Spells(s, word) {
      assert forall k | 0 <= k < |s| :: Lower(s)[k] == word[k];
    }
  }

  lemma UpperSpells(s: Text, word: Text)
    requires forall k | 0 <= k < |word| :: 0x41 <= word[k] <= 0x5a
    ensures Upper(s) == word <==> Spells(s, word)
  {
    if Spells(s, word) {
      assert forall k | 0 <= k < |s| :: Upper(s)[k] == word[k];
    }
  }

  /** What the code reads from a worded argument: the text of its field, or the fallback without one. */
  lemma ArgumentIsText(args: Json, name: string, fallback: string)
    requires Proper(args) && Worded(args, Ascii(name))
    ensures Silent(args, Ascii(name)) ==> Argument(args, name, fallback) == Ascii(fallback)
    ensures !Silent(args, Ascii(name)) ==>
              args.Obj? && exists i | 0 <= i < |args.fields| ::
                args.fields[i] == Field(Ascii(name), Str(Argument(args, name, fallback)))
                && Argument(args, name, fallback) != []
  {
    if args.Obj? {
      FieldOfFinds(args.fields, Ascii(name));
    }
  }

  lemma SaysIffArgument(args: Json, name: string, fallback: string, word: Text)
    requires Proper(args) && Worded(args, Ascii(name)) && word != [] && !Silent(args, Ascii(name))
    ensures Says(args, Ascii(name), word) <==> Spells(Argument(args, name, fallback), word)
  {
    ArgumentIsText(args, name, fallback);
    var i :| 0 <= i < |args.fields| && args.fields[i] == Field(Ascii(name), Str(Argument(args, name, fallback)));
    forall j | 0 <= j < |args.fields| && args.fields[j].key == Ascii(name)
      ensures j == i
    {
      assert args.fields[i].key == args.fields[j].key;
    }
  }

  lemma SilentSaysNothing(args: Json, key: Text, word: Text)
    requires Silent(args, key) && word != []
    ensures !Says(args, key, word)
  {
  }

  /** The `files` calls that drop what the cache holds of files, when they succeed: write and delete, and no others. */
  lemma MutatingMeans(args: Json)
    requires Proper(args) && Worded(args, ACTION)
    ensures Mutating(args) <==> WritesOrDeletes(args)
  {
    Words();
    LowerSpells(Argument(args, "action", ""), WRITE);
    LowerSpells(Argument(args, "action", ""), DELETE);
    if Silent(args, ACTION) {
      ArgumentIsText(args, "action", "");
      SilentSaysNothing(args, ACTION, WRITE);
      SilentSaysNothing(args, ACTION, DELETE);
    } else {
      SaysIffArgument(args, "action", "", WRITE);
      SaysIffArgument(args, "action", "", DELETE);
    }
  }

  lemma SpeakingIsWorded(args: Json, key: Text, word: Text)
    requires Proper(args) && Says(args, key, word)
    ensures Worded(args, key)
  {
    var i :| 0 <= i < |args.fields| && args.fields[i].key == key && args.fields[i].value.Str?
      && Spells(args.fields[i].value.s, word);
    forall j | 0 <= j < |args.fields| && args.fields[j].key == key
      ensures j == i
    {
      assert args.fields[i].key == args.fields[j].key;
    }
  }

  lemma WritingMutates(args: Json)
    requires Proper(args) && WritesOrDeletes(args)
    ensures Mutating(args) && !Cacheable("files", args)
  {
    if Says(args, ACTION, WRITE) {
      SpeakingIsWorded(args, ACTION, WRITE);
    } else {
      SpeakingIsWorded(args, ACTION, DELETE);
    }
    MutatingMeans(args);
    if Cacheable("files", args) {
      CacheableFilesDoNotMutate(args);
    }
  }

  /** The `files` calls the cache may answer: list, stat and read, and those that name no action. */
  lemma CacheableFilesMeans(args: Json)
    requires Proper(args) && Worded(args, ACTION)
    ensures Cacheable("files", args) <==> Silent(args, ACTION) || Reads(args)
  {
    Words();
    var action := Argument(args, "action", "list");
    LowerSpells(action, LIST);
    LowerSpells(action, STAT);
    LowerSpells(action, READ);
    if Silent(args, ACTION) {
      ArgumentIsText(args, "action", "list");
      assert Lower(LIST) == LIST;
    } else {
      SaysIffArgument(args, "action", "list", LIST);
      SaysIffArgument(args, "action", "list", STAT);
      SaysIffArgument(args, "action", "list", READ);
    }
  }

  /** Of the other tools, sysinfo and web always, net but for POST, and no further one. */
  lemma OtherToolsCacheable(tool: string, args: Json)
    requires Proper(args) && Worded(args, METHOD) && tool != "files"
    ensures Cacheable(tool, args) <==>
            tool == "sysinfo" || tool == "web" || (tool == "net" && !Says(args, METHOD, POST))
  {
    Words();
    var given := Argument(args, "method", "GET");
    UpperSpells(given, POST);
    if Silent(args, METHOD) {
      ArgumentIsText(args, "method", "GET");
      SilentSaysNothing(args, METHOD, POST);
      assert |Upper(Ascii("GET"))| == 3;
    } else {
      SaysIffArgument(args, "method", "GET", POST);
    }
  }

  // ---- arguments that are not texts ----

  /** The text of a list is that of its items with commas between them, null being empty. */
  lemma {:induction false} ListsAreJoined(p: seq<Json>, q: seq<Json>)
    requires p != [] && q != []
    ensures Joined(p + q) == Joined(p) + [0x2c] + Joined(q)
  {
    assert (p + q)[0] == p[0] && (p + q)[1..] == p[1..] + q;
    var first := if p[0].Null? then [] else StringOf(p[0]);
    assert Joined(p + q) == first + ([COMMA] + Joined(p[1..] + q));
    if |p| > 1 {
      ListsAreJoined(p[1..], q);
      Grouped(first, [COMMA], Joined(p[1..]), Joined(q));
    } else {
      assert p[1..] + q == q;
    }
  }

  lemma Grouped(a: Text, b: Text, c: Text, d: Text)
    ensures a + (b + (c + [0x2c] + d)) == a + (b + c) + [0x2c] + d
  {
  }

  predicate SpellsNoAction(t: Text) {
    !Spells(t, LIST) && !Spells(t, STAT) && !Spells(t, READ) && !Spells(t, WRITE) && !Spells(t, DELETE)
  }

  /** No word for an action has such a character: a comma, a blank, or the letter u. */
  lemma ForeignToActions(t: Text, k: nat)
    requires k < |t| && t[k] in {0x2c, 0x20, 0x75}
    ensures SpellsNoAction(t)
  {
  }

  /** A list of several values, a number other than zero, an object, or true. */
  predicate Odd(v: Json) {
    v == Bool(true) || v.Obj? || (v.Num? && v != Num([0x30])) || (v.Arr? && |v.items| > 1)
  }

  lemma OddTextIsNoAction(v: Json)
    requires Proper(v) && Odd(v)
    ensures SpellsNoAction(StringOf(v))
  {
    var t := StringOf(v);
    match v
    case Bool(_) => ForeignToActions(t, 2);
    case Obj(_) => ForeignToActions(t, 7);
    case Arr(items) =>
      ListsAreJoined(items[..1], items[1..]);
      assert items[..1] + items[1..] == items;
      ForeignToActions(t, |Joined(items[..1])|);
    case Num(digits) => assert NumberUnit(digits[0]);
  }

  lemma NoActionByText(t: Text)
    requires SpellsNoAction(t)
    ensures Lower(t) !in {Ascii("list"), Ascii("stat"), Ascii("read"), Ascii("write"), Ascii("delete")}
  {
    Words();
    LowerSpells(t, LIST);
    LowerSpells(t, STAT);
    LowerSpells(t, READ);
    LowerSpells(t, WRITE);
    LowerSpells(t, DELETE);
  }

  /** Such an action is never taken for one the cache knows, nor for the default. */
  lemma OddActions(args: Json, i: nat)
    requires Proper(args) && args.Obj? && i < |args.fields| && args.fields[i].key == ACTION && Odd(args.fields[i].value)
    ensures !Cacheable("files", args) && !Mutating(args)
  {
    var v := args.fields[i].value;
    OddTextIsNoAction(v);
    NoActionByText(StringOf(v));
    Words();
    FieldOfFinds(args.fields, ACTION);
    assert FieldOf(args.fields, ACTION) == Some(v);
    assert Argument(args, "action", "list") == StringOf(v) && Argument(args, "action", "") == StringOf(v);
  }
}
