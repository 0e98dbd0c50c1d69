/** The name table over whole runs, for sets of names none of which is a proper prefix of another. */
module Names {
  import opened Myfs

  datatype Event = Open(name: string) | Unlink(name: string)

  /** No name of the set begins another one of it; the empty name means a free slot. */
  ghost predicate PrefixFree(names: set<string>) {
    "" !in names && forall s, t {:trigger Extends(t, s)} :: s in names && t in names ==> !Extends(t, s)
  }

  /** What the calls need: a slot to open into, and no references at unlink. */
  predicate Premise(files: seq<File>, e: Event) {
    match e
    case Open(name) => OpenSlot(files, name) < |files|
    case Unlink(name) => forall i :: 0 <= i < |files| && Matches(name, files[i]) ==> files[i].refs == 0
  }

  function Files(files: seq<File>, e: Event): seq<File>
    requires Premise(files, e)
  {
    match e
    case Open(name) => OpenFiles(files, name)
    case Unlink(name) => UnlinkFiles(files, name)
  }

  /** The same events on a finite map from names to slots. */
  function Entries(m: map<string, nat>, files: seq<File>, e: Event): map<string, nat> {
    match e
    case Open(name) => m[name := OpenSlot(files, name)]
    case Unlink(name) => m - {name}
  }

  ghost predicate Run(fss: seq<seq<File>>, ms: seq<map<string, nat>>, es: seq<Event>, names: set<string>) {
    && |fss| == |ms| == |es| + 1
    && (forall i {:trigger fss[0][i]} :: 0 <= i < |fss[0]| ==> fss[0][i].name == "") && ms[0] == map[]
    && forall i {:trigger es[i]} :: 0 <= i < |es| ==>
         && es[i].name in names && Premise(fss[i], es[i])
         && fss[i + 1] == Files(fss[i], es[i]) && ms[i + 1] == Entries(ms[i], fss[i], es[i])
  }

  lemma StepExact(files: seq<File>, m: map<string, nat>, e: Event, names: set<string>)
    requires PrefixFree(names) && Directory(files, m) && m.Keys <= names && e.name in names && Premise(files, e)
    ensures Directory(Files(files, e), Entries(m, files, e)) && Entries(m, files, e).Keys <= names
  {
    forall s | s in m ensures !Extends(s, e.name) {
      assert s in names;
    }
    match e
    case Open(name) => OpenExact(files, m, name);
    case Unlink(name) => UnlinkExact(files, m, name);
  }

  /** In every run the table is the map: the named slots are exactly the map's entries. */
  lemma {:induction false} TableIsMap(fss: seq<seq<File>>, ms: seq<map<string, nat>>, es: seq<Event>, names: set<string>, i: nat)
    requires PrefixFree(names) && Run(fss, ms, es, names) && i <= |es|
    ensures Directory(fss[i], ms[i]) && ms[i].Keys <= names
  {
    if i > 0 {
      TableIsMap(fss, ms, es, names, i - 1);
      assert es[i - 1].name in names;
      StepExact(fss[i - 1], ms[i - 1], es[i - 1], names);
    }
  }

  /** So an open finds the slot of exactly that name, or takes a slot no name has. */
  lemma OpenFinds(fss: seq<seq<File>>, ms: seq<map<string, nat>>, es: seq<Event>, names: set<string>, i: nat, name: string)
    requires PrefixFree(names) && Run(fss, ms, es, names) && i <= |es| && name in names && OpenSlot(fss[i], name) < |fss[i]|
    ensures name in ms[i] ==> OpenSlot(fss[i], name) == ms[i][name]
    ensures name !in ms[i] ==> forall s :: s in ms[i] ==> ms[i][s] != OpenSlot(fss[i], name)
  {
    TableIsMap(fss, ms, es, names, i);
    var files, m := fss[i], ms[i];
    var first := FirstMatch(files, name, 0);
    if first < |files| {
      var s := files[first].name;
      assert s in m && s in names;
      assert !Extends(s, name);
    } else {
      forall s | s in m ensures s != name {
        assert !Matches(name, files[m[s]]);
      }
    }
  }
}
