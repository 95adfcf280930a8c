/** Node ids inside service addresses: parse_node_id of crates/router/src/connection.rs. */
module NodeId {
  import opened Common

  /** `split('/')`, taken one part at a time: the first part... */
  function Head(s: string): string {
    if s == "" || s[0] == '/' then "" else [s[0]] + Head(s[1..])
  }

  /** ...and what follows its slash, if there is one. */
  function Tail(s: string): Option<string> {
    if s == "" then None else if s[0] == '/' then Some(s[1..]) else Tail(s[1..])
  }

  /** The third part, when the second one is "net". */
  function ParseNodeId(service: string): Option<string> {
    match Tail(service)
    case None => None
    case Some(rest) =>
      if Head(rest) != "net" then None
      else match Tail(rest)
        case None => None
        case Some(below) => Some(Head(below))
  }

  function Below(s: string): string {
    match Tail(s)
    case None => ""
    case Some(t) => "/" + t
  }

  lemma {:induction false} HeadAndTail(s: string)
    ensures '/' !in Head(s) && s == Head(s) + Below(s)
  {
    if s == "" {
    } else if s[0] == '/' {
      assert Below(s) == "/" + s[1..] == s;
    } else {
      HeadAndTail(s[1..]);
      assert Below(s) == Below(s[1..]);
      Cons(s, Head(s[1..]), Below(s[1..]));
    }
  }

  lemma Cons(s: string, h: string, b: string)
    requires s != "" && s[1..] == h + b
    ensures s == [s[0]] + h + b
  {
  }

  lemma {:induction false} HeadOfJoined(a: string, b: string)
    requires '/' !in a && (b == "" || b[0] == '/')
    ensures Head(a + b) == a && Tail(a + b) == if b == "" then None else Some(b[1..])
  {
    if a == "" {
      assert a + b == b;
    } else {
      assert (a + b)[1..] == a[1..] + b;
      HeadOfJoined(a[1..], b);
    }
  }

  /** Every address of the form <head>/net/<id>, with anything or nothing below it, names that node... */
  lemma NodeIdOfNetAddress(head: string, id: string, tail: string)
    requires '/' !in head && '/' !in id && (tail == "" || tail[0] == '/')
    ensures ParseNodeId(head + "/net/" + id + tail) == Some(id)
  {
    var below := id + tail;
    var rest := "net" + ("/" + below);
    HeadOfJoined(head, "/" + rest);
    HeadOfJoined("net", "/" + below);
    HeadOfJoined(id, tail);
    assert ("/" + rest)[1..] == rest && ("/" + below)[1..] == below;
    Regroup(head, id, tail);
  }

  lemma Regroup(head: string, id: string, tail: string)
    ensures head + ("/" + ("net" + ("/" + (id + tail)))) == head + "/net/" + id + tail
  {
  }

  /** ...and nothing else does. */
  lemma NodeIdComesFromNetAddress(service: string) returns (head: string, tail: string)
    requires ParseNodeId(service).Some?
    ensures '/' !in head && '/' !in ParseNodeId(service).value && (tail == "" || tail[0] == '/')
    ensures service == head + "/net/" + ParseNodeId(service).value + tail
  {
    var rest := Tail(service).value;
    var below := Tail(rest).value;
    HeadAndTail(service);
    HeadAndTail(rest);
    HeadAndTail(below);
    head, tail := Head(service), Below(below);
    Regroup(head, Head(below), tail);
  }
}
