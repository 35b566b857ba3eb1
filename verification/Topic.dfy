// MQTT topics: printed by the publisher (internal/mqtt/publisher.go), parsed by the router
// (internal/mqtt/router.go).
module Topic {
  import opened Common

  const SLASH: char := '/'

  /** strings.Split(s, "/") */
  function Split(s: string): (ps: seq<string>)
    ensures |ps| > 0
  {
    if s == "" then [""]
    else
      var ps := Split(s[1..]);
      if s[0] == SLASH then [""] + ps else [[s[0]] + ps[0]] + ps[1..]
  }

  function Join(ps: seq<string>): string
    requires |ps| > 0
  {
    if |ps| == 1 then ps[0] else ps[0] + [SLASH] + Join(ps[1..])
  }

  predicate SlashFree(p: string) { SLASH !in p }

  predicate AllSlashFree(ps: seq<string>) { forall i | 0 <= i < |ps| :: SlashFree(ps[i]) }

  lemma {:induction false} JoinOfSplit(s: string)
    ensures Join(Split(s)) == s && AllSlashFree(Split(s))
  {
    if s != "" {
      JoinOfSplit(s[1..]);
      var ps := Split(s[1..]);
      if s[0] == SLASH {
        assert Split(s)[1..] == ps;
      } else if |ps| > 1 {
        assert Split(s)[1..] == ps[1..];
      }
    }
  }

  /** Splitting undoes the joining of slash-free pieces. */
  lemma {:induction false} SplitOfJoin(ps: seq<string>)
    requires |ps| > 0 && AllSlashFree(ps)
    ensures Split(Join(ps)) == ps
    decreases |ps|, |ps[0]|
  {
    var s := Join(ps);
    if ps[0] == "" {
      if |ps| > 1 {
        SplitOfJoin(ps[1..]);
        assert s[1..] == Join(ps[1..]) && ps == [""] + ps[1..];
      }
    } else {
      var ps' := [ps[0][1..]] + ps[1..];
      assert ps'[1..] == ps[1..] && SlashFree(ps'[0]);
      SplitOfJoin(ps');
      assert s[1..] == Join(ps');
      assert s[0] == ps[0][0] && s[0] in ps[0];
      assert [s[0]] + ps'[0] == ps[0];
      assert Split(s) == [[s[0]] + ps'[0]] + ps'[1..] == ps;
    }
  }

  datatype Parts = Parts(tid: string, pid: string, did: string, suffix: string)

  function Pieces(p: Parts): seq<string> { ["setu", p.tid, p.pid, p.did, p.suffix] }

  predicate Plain(p: Parts) { SlashFree(p.tid) && SlashFree(p.pid) && SlashFree(p.did) && SlashFree(p.suffix) }

  /** "setu/%s/%s/%s/" and a suffix: dn downstream, up or shd upstream. */
  function Print(p: Parts): string {
    "setu/" + p.tid + "/" + p.pid + "/" + p.did + "/" + p.suffix
  }

  function Parse(topic: string): Option<Parts> {
    var ps := Split(topic);
    if |ps| != 5 || ps[0] != "setu" then None else Some(Parts(ps[1], ps[2], ps[3], ps[4]))
  }

  lemma JoinCons(p: string, ps: seq<string>)
    requires |ps| > 0
    ensures Join([p] + ps) == p + "/" + Join(ps)
  {
    assert ([p] + ps)[1..] == ps;
  }

  lemma PrintJoins(p: Parts)
    ensures Print(p) == Join(Pieces(p))
  {
    JoinCons(p.did, [p.suffix]);
    JoinCons(p.pid, [p.did] + [p.suffix]);
    JoinCons(p.tid, [p.pid] + ([p.did] + [p.suffix]));
    JoinCons("setu", [p.tid] + ([p.pid] + ([p.did] + [p.suffix])));
    assert Pieces(p) == ["setu"] + ([p.tid] + ([p.pid] + ([p.did] + [p.suffix])));
    assert Print(p) == "setu" + "/" + (p.tid + "/" + (p.pid + "/" + (p.did + "/" + p.suffix)));
  }

  function Slashes(s: string): nat {
    if s == "" then 0 else (if s[0] == SLASH then 1 else 0) + Slashes(s[1..])
  }

  lemma {:induction false} PieceCount(s: string)
    ensures |Split(s)| == Slashes(s) + 1
  {
    if s != "" { PieceCount(s[1..]); }
  }

  lemma {:induction false} SlashesAdd(s: string, t: string)
    ensures Slashes(s + t) == Slashes(s) + Slashes(t)
  {
    if s == "" { assert s + t == t; }
    else {
      SlashesAdd(s[1..], t);
      assert (s + t)[1..] == s[1..] + t;
    }
  }

  lemma {:induction false} SlashesIn(s: string)
    ensures Slashes(s) == 0 <==> SlashFree(s)
  {
    if s != "" {
      SlashesIn(s[1..]);
      assert SLASH in s <==> s[0] == SLASH || SLASH in s[1..];
    }
  }

  lemma SlashesAround(s: string, t: string)
    ensures Slashes(s + "/" + t) == Slashes(s) + 1 + Slashes(t)
  {
    SlashesAdd(s + "/", t);
    SlashesAdd(s, "/");
    assert "/"[1..] == "";
  }

  lemma PrintedSlashes(p: Parts)
    ensures Slashes(Print(p)) == 4 + Slashes(p.tid) + Slashes(p.pid) + Slashes(p.did) + Slashes(p.suffix)
  {
    SlashesAround("setu/" + p.tid + "/" + p.pid + "/" + p.did, p.suffix);
    SlashesAround("setu/" + p.tid + "/" + p.pid, p.did);
    SlashesAround("setu/" + p.tid, p.pid);
    SlashesAround("setu", p.tid);
    SlashesIn("setu");
    assert "setu/" + p.tid == "setu" + "/" + p.tid;
  }

  /** Whatever parses is what its parts print. */
  lemma ParsedPrintsBack(topic: string)
    requires Parse(topic).Some?
    ensures Print(Parse(topic).value) == topic && Plain(Parse(topic).value)
  {
    JoinOfSplit(topic);
    PrintJoins(Parse(topic).value);
    assert Pieces(Parse(topic).value) == Split(topic);
  }

  /** A printed topic parses to its parts when none of them holds a slash, and to nothing at all otherwise. */
  lemma PrintedParsesExactly(p: Parts)
    ensures Parse(Print(p)) == if Plain(p) then Some(p) else None
  {
    PrintJoins(p);
    if Plain(p) {
      SplitOfJoin(Pieces(p));
    } else {
      PrintedSlashes(p);
      PieceCount(Print(p));
      SlashesIn(p.tid);
      SlashesIn(p.pid);
      SlashesIn(p.did);
      SlashesIn(p.suffix);
    }
  }

  /** The topics that parse are the topics of plain parts; no topic names two devices. */
  lemma TopicsAreUnambiguous(topic: string, p: Parts)
    ensures Parse(topic) == Some(p) <==> Plain(p) && Print(p) == topic
  {
    if Parse(topic) == Some(p) { ParsedPrintsBack(topic); }
    if Plain(p) && Print(p) == topic { PrintedParsesExactly(p); }
  }

  /** A slash can move between parts without the text showing it, but no such text parses. */
  lemma MovedSlash(x: string, y: string, z: string, did: string, suffix: string)
    ensures var p, q := Parts(x + "/" + y, z, did, suffix), Parts(x, y + "/" + z, did, suffix);
      Print(p) == Print(q) && Parse(Print(p)).None?
  {
    var p, q := Parts(x + "/" + y, z, did, suffix), Parts(x, y + "/" + z, did, suffix);
    assert Print(p) == Print(q);
    assert p.tid[|x|] == SLASH;
    PrintedParsesExactly(p);
  }
}
