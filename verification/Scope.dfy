/**
 Message lookup by fully-qualified name over a set of file descriptors, without backtracking: at
 each level the first sibling whose name fits the front of the remaining name is entered for good.
 `Declares` and `Spelling` say what a correct answer is.
 */
module Scope {
  import opened Wrappers

  datatype Message = Message(name: string, nested: seq<Message>)

  datatype File = File(name: string, package: string, messages: seq<Message>)

  // The three panics of the source, and a hit: the file's position, the enclosing messages, the message.
  datatype Outcome =
    | NoLeadingDot
    | EmptyComponent
    | NotFound
    | Found(file: nat, path: seq<Message>, msg: Message)

  function StripPrefix(s: string, prefix: string): Option<string> {
    if prefix <= s then Some(s[|prefix|..]) else None
  }

  predicate StartsWithDot(s: string) {
    s != "" && s[0] == '.'
  }

  // -------------------------------------------------------------- reference

  /** `chain` leads from one of `msgs` down through nested messages. */
  predicate Chain(msgs: seq<Message>, chain: seq<Message>) {
    chain != [] && chain[0] in msgs && (|chain| > 1 ==> Chain(chain[0].nested, chain[1..]))
  }

  function Dotted(chain: seq<Message>): string
    requires chain != []
  {
    if |chain| == 1 then chain[0].name else chain[0].name + "." + Dotted(chain[1..])
  }

  predicate Declares(file: File, path: seq<Message>, msg: Message) {
    Chain(file.messages, path + [msg])
  }

  function Spelling(file: File, path: seq<Message>, msg: Message): string {
    "." + (if file.package == "" then "" else file.package + ".") + Dotted(path + [msg])
  }

  predicate Simple(name: string) {
    name != "" && forall i :: 0 <= i < |name| ==> name[i] != '.'
  }

  /** Sibling-unique, non-empty, dot-free names on every level. */
  predicate WellNamed(msgs: seq<Message>)
    decreases msgs
  {
    && (forall i :: 0 <= i < |msgs| ==> Simple(msgs[i].name) && WellNamed(msgs[i].nested))
    && (forall i, j :: 0 <= i < j < |msgs| ==> msgs[i].name != msgs[j].name)
  }

  /** No empty component: neither a leading dot nor two dots in a row. */
  predicate NoEmptyComponent(s: string) {
    !StartsWithDot(s) && forall i :: 0 <= i < |s| - 1 && s[i] == '.' ==> s[i + 1] != '.'
  }

  predicate WellFormedFile(file: File) {
    && WellNamed(file.messages)
    && NoEmptyComponent(file.package) && (file.package != "" ==> file.package[|file.package| - 1] != '.')
  }

  predicate WellFormed(files: seq<File>) {
    forall i :: 0 <= i < |files| ==> WellFormedFile(files[i])
  }

  predicate DeclaredIn(file: File, fqn: string, path: seq<Message>, msg: Message) {
    Declares(file, path, msg) && Spelling(file, path, msg) == fqn
  }

  // ----------------------------------------------------- the descent, as a function

  predicate Fits(msg: Message, rest: string) {
    msg.name <= rest && (|msg.name| == |rest| || rest[|msg.name|] == '.')
  }

  /** The position of the first sibling that fits the front of `rest`; `|msgs|` if none does. */
  function FirstFit(msgs: seq<Message>, rest: string): (k: nat)
    ensures k <= |msgs| && (k < |msgs| ==> Fits(msgs[k], rest))
    ensures forall i :: 0 <= i < k ==> !Fits(msgs[i], rest)
  {
    if msgs == [] || Fits(msgs[0], rest) then 0 else 1 + FirstFit(msgs[1..], rest)
  }

  function Descend(msgs: seq<Message>, rest: string): Option<seq<Message>>
    decreases |rest|
  {
    var k := FirstFit(msgs, rest);
    if k == |msgs| then None
    else if |msgs[k].name| == |rest| then Some([msgs[k]])
    else match Descend(msgs[k].nested, rest[|msgs[k].name| + 1..])
      case None => None
      case Some(chain) => Some([msgs[k]] + chain)
  }

  /** What is left of the name for a file: `None` if its package does not fit. */
  function LocalName(file: File, fqn1: string): Option<string> {
    match StripPrefix(fqn1, file.package)
    case Some(rest) =>
      if file.package == "" then Some(rest)
      else if StartsWithDot(rest) then Some(rest[1..])
      else None
    case None => None
  }

  // ------------------------------------------------------------- the lookup

  /** The descent inside one file: `path` and `fqn2` advance together, and nothing is ever undone. */
  method FindInFile(fd: File, local: string) returns (r: Option<(seq<Message>, Message)>)
    ensures r.Some? <==> Descend(fd.messages, local).Some?
    ensures r.Some? ==> Descend(fd.messages, local) == Some(r.value.0 + [r.value.1])
  {
    var fqn2 := local;
    var pending := Some(fd.messages);
    var path: seq<Message> := [];
    while pending.Some?
      invariant pending.None? ==> Descend(fd.messages, local).None?
      invariant pending.Some? ==>
                  Descend(fd.messages, local) == Prefixed(path, Descend(pending.value, fqn2))
      decreases pending.Some?, |fqn2|
    {
      var msgs := pending.value;
      pending := None;
      ghost var rest := fqn2;
      var i := 0;
      while i < |msgs|
        invariant 0 <= i <= |msgs| && pending.None? && fqn2 == rest
        invariant forall j :: 0 <= j < i ==> !Fits(msgs[j], rest)
      {
        var msg := msgs[i];
        match StripPrefix(fqn2, msg.name) {
          case Some(left) =>
            if left == "" {
              assert FirstFit(msgs, rest) == i;
              return Some((path, msg));
            } else if StartsWithDot(left) {
              assert FirstFit(msgs, rest) == i;
              assert left[1..] == rest[|msg.name| + 1..];
              PrefixedStep(path, msg, Descend(msg.nested, left[1..]));
              fqn2 := left[1..];
              path := path + [msg];
              pending := Some(msg.nested);
              break;
            }
          case None =>
        }
        i := i + 1;
      }
    }
    r := None;
  }

  function Prefixed(path: seq<Message>, chain: Option<seq<Message>>): (r: Option<seq<Message>>)
    ensures path == [] ==> r == chain
  {
    match chain
    case None => None
    case Some(c) =>
      assert [] + c == c;
      Some(path + c)
  }

  lemma PrefixedStep(path: seq<Message>, msg: Message, chain: Option<seq<Message>>)
    ensures Prefixed(path + [msg], chain) == Prefixed(path, Prefixed([msg], chain))
  {
    match chain {
      case None =>
      case Some(c) => assert path + [msg] + c == path + ([msg] + c);
    }
  }

  method FindMessage(files: seq<File>, fqn: string) returns (r: Outcome)
    ensures r == NoLeadingDot <==> !StartsWithDot(fqn)
    ensures r.Found? ==> r.file < |files| && DeclaredIn(files[r.file], fqn, r.path, r.msg)
    ensures WellFormed(files) && r.Found? ==>
              forall i, path, msg :: 0 <= i < r.file ==> !DeclaredIn(files[i], fqn, path, msg)
    ensures WellFormed(files) && !r.Found? ==>
              forall i, path, msg :: 0 <= i < |files| ==> !DeclaredIn(files[i], fqn, path, msg)
  {
    if !StartsWithDot(fqn) {
      return NoLeadingDot;
    }
    var fqn1 := fqn[1..];
    assert fqn == "." + fqn1;
    var i := 0;
    while i < |files|
      invariant 0 <= i <= |files|
      invariant WellFormed(files) ==>
                  forall j, path, msg :: 0 <= j < i ==> !DeclaredIn(files[j], fqn, path, msg)
    {
      var fd := files[i];
      var local := LocalName(fd, fqn1);
      if local.Some? {
        if StartsWithDot(local.value) {
          if WellFormed(files) {
            forall k, path, msg | 0 <= k < |files|
              ensures !DeclaredIn(files[k], fqn, path, msg)
            {
              EmptyComponentUndeclared(files[k], fd, fqn1, path, msg);
            }
          }
          return EmptyComponent;
        }
        var hit := FindInFile(fd, local.value);
        if hit.Some? {
          LocalNameSound(fd, fqn1, hit.value.0, hit.value.1);
          return Found(i, hit.value.0, hit.value.1);
        }
      }
      forall path, msg | WellFormed(files)
        ensures !DeclaredIn(fd, fqn, path, msg)
      {
        LocalNameComplete(fd, fqn1, path, msg);
      }
      i := i + 1;
    }
    r := NotFound;
  }

  // ------------------------------------------------------------- the proofs

  /** Whatever the descent returns is a chain of nested messages that spells the name. */
  lemma {:induction false} DescendSound(msgs: seq<Message>, rest: string)
    requires Descend(msgs, rest).Some?
    ensures var chain := Descend(msgs, rest).value; Chain(msgs, chain) && Dotted(chain) == rest
    decreases |rest|
  {
    var k := FirstFit(msgs, rest);
    var n := |msgs[k].name|;
    if n < |rest| {
      DescendSound(msgs[k].nested, rest[n + 1..]);
      assert rest == rest[..n] + "." + rest[n + 1..];
    }
  }

  /** Two dot-free names that both fit the same front are equal. */
  lemma FitUnique(name: string, msg: Message, rest: string)
    requires Simple(name) && Simple(msg.name) && Fits(msg, rest)
    requires name <= rest && (|name| == |rest| || rest[|name|] == '.')
    ensures msg.name == name
  {
    assert name == rest[..|name|] && msg.name == rest[..|msg.name|];
  }

  /** On well-named messages the descent finds every chain, and there is one chain per name. */
  lemma {:induction false} DescendComplete(msgs: seq<Message>, chain: seq<Message>)
    requires WellNamed(msgs) && Chain(msgs, chain)
    ensures Descend(msgs, Dotted(chain)) == Some(chain)
    decreases |chain|
  {
    var rest, head := Dotted(chain), chain[0];
    var i :| 0 <= i < |msgs| && msgs[i] == head;
    assert Simple(head.name) && head.name <= rest;
    assert |chain| > 1 ==> rest[|head.name|] == '.';
    assert Fits(head, rest);
    var k := FirstFit(msgs, rest);
    assert k <= i;
    FitUnique(head.name, msgs[k], rest);
    assert k == i;
    if |chain| == 1 {
      assert chain == [head];
    } else {
      assert rest[|head.name| + 1..] == Dotted(chain[1..]);
      DescendComplete(head.nested, chain[1..]);
      assert chain == [head] + chain[1..];
    }
  }

  lemma LocalNameSound(file: File, fqn1: string, path: seq<Message>, msg: Message)
    requires LocalName(file, fqn1).Some?
    requires Descend(file.messages, LocalName(file, fqn1).value) == Some(path + [msg])
    ensures DeclaredIn(file, "." + fqn1, path, msg)
  {
    var local := LocalName(file, fqn1).value;
    DescendSound(file.messages, local);
    if file.package != "" {
      assert fqn1 == file.package + "." + local;
    }
  }

  lemma LocalNameComplete(file: File, fqn1: string, path: seq<Message>, msg: Message)
    requires WellFormedFile(file)
    requires LocalName(file, fqn1).Some? ==> Descend(file.messages, LocalName(file, fqn1).value).None?
    ensures !DeclaredIn(file, "." + fqn1, path, msg)
  {
    if DeclaredIn(file, "." + fqn1, path, msg) {
      LocalNameOfDeclared(file, fqn1, path, msg);
      DescendComplete(file.messages, path + [msg]);
    }
  }

  lemma LocalNameOfDeclared(file: File, fqn1: string, path: seq<Message>, msg: Message)
    requires Spelling(file, path, msg) == "." + fqn1
    ensures LocalName(file, fqn1) == Some(Dotted(path + [msg]))
  {
    SpellingTail(file, fqn1, path, msg);
    var local := Dotted(path + [msg]);
    if file.package == "" {
      assert fqn1 == local && fqn1[0..] == local;
    } else {
      assert fqn1[|file.package|..] == "." + local;
      assert ("." + local)[1..] == local;
    }
  }

  lemma SpellingTail(file: File, fqn1: string, path: seq<Message>, msg: Message)
    requires Spelling(file, path, msg) == "." + fqn1
    ensures fqn1 == (if file.package == "" then "" else file.package + ".") + Dotted(path + [msg])
  {
    assert ("." + fqn1)[1..] == fqn1;
    assert Spelling(file, path, msg)[1..]
        == (if file.package == "" then "" else file.package + ".") + Dotted(path + [msg]);
  }

  lemma {:induction false} DottedHasNoEmptyComponent(msgs: seq<Message>, chain: seq<Message>)
    requires WellNamed(msgs) && Chain(msgs, chain)
    ensures NoEmptyComponent(Dotted(chain)) && Dotted(chain) != ""
    decreases |chain|
  {
    var head := chain[0];
    var i :| 0 <= i < |msgs| && msgs[i] == head;
    assert Simple(head.name);
    if |chain| > 1 {
      DottedHasNoEmptyComponent(head.nested, chain[1..]);
      JoinComponents(head.name, Dotted(chain[1..]));
    }
  }

  lemma JoinComponents(s: string, t: string)
    requires NoEmptyComponent(s) && NoEmptyComponent(t) && s != "" && t != "" && s[|s| - 1] != '.'
    ensures NoEmptyComponent(s + "." + t)
  {
    var joined := s + "." + t;
    forall i | 0 <= i < |joined| - 1 && joined[i] == '.'
      ensures joined[i + 1] != '.'
    {
      if i > |s| {
        assert t[i - |s| - 1] == joined[i] && t[i - |s|] == joined[i + 1];
      } else if i < |s| - 1 {
        assert s[i] == joined[i] && s[i + 1] == joined[i + 1];
      }
    }
  }

  lemma DeclaredHasNoEmptyComponent(file: File, fqn1: string, path: seq<Message>, msg: Message)
    requires WellFormedFile(file) && DeclaredIn(file, "." + fqn1, path, msg)
    ensures NoEmptyComponent(fqn1)
  {
    SpellingTail(file, fqn1, path, msg);
    DottedHasNoEmptyComponent(file.messages, path + [msg]);
    if file.package == "" {
      assert fqn1 == Dotted(path + [msg]);
    } else {
      JoinComponents(file.package, Dotted(path + [msg]));
    }
  }

  lemma LocalDotIsEmptyComponent(fd: File, fqn1: string)
    requires LocalName(fd, fqn1).Some? && StartsWithDot(LocalName(fd, fqn1).value)
    ensures !NoEmptyComponent(fqn1)
  {
    var n := |fd.package|;
    if n == 0 {
      assert fqn1[0..] == fqn1;
    } else {
      assert fqn1[n..][0] == fqn1[n] && fqn1[n..][1..][0] == fqn1[n + 1];
    }
  }

  /** No file declares a name with an empty component, so the source's assertion guards nothing real. */
  lemma EmptyComponentUndeclared(file: File, fd: File, fqn1: string, path: seq<Message>, msg: Message)
    requires WellFormedFile(file)
    requires LocalName(fd, fqn1).Some? && StartsWithDot(LocalName(fd, fqn1).value)
    ensures !DeclaredIn(file, "." + fqn1, path, msg)
  {
    LocalDotIsEmptyComponent(fd, fqn1);
    if DeclaredIn(file, "." + fqn1, path, msg) {
      DeclaredHasNoEmptyComponent(file, fqn1, path, msg);
    }
  }
}
