/** What the chain makes evident: intact trails that end alike are alike, and a
    change to any row but the newest is reported at the first row it affects. */
module AuditTamper {
  import opened Types
  import opened Audit

  /** No row hashes to the head the chain starts from. */
  ghost predicate HeadUnused(h: Hashing, head: string, links: set<Link>) {
    forall l | l in links :: HashOf(h, l) != head
  }

  predicate SameContent(a: seq<Row>, b: seq<Row>) {
    |a| == |b| && forall i | 0 <= i < |a| :: a[i].event == b[i].event && a[i].hash == b[i].hash
  }

  lemma PrevLength(h: Hashing, head: string, rows: seq<Row>, i: nat)
    requires FixedLength(h) && |head| == HASH_LENGTH && i <= |rows|
    requires forall j | 0 <= j < i :: LinkOk(h, head, rows, j)
    ensures |Prev(head, rows, i)| == HASH_LENGTH
  {
    if i > 0 {
      assert LinkOk(h, head, rows, i - 1);
    }
  }

  /** Dropping the newest row keeps a trail intact. */
  lemma DropLast(h: Hashing, head: string, rows: seq<Row>)
    requires Intact(h, head, rows) && rows != []
    ensures Intact(h, head, rows[..|rows| - 1])
    ensures Links(head, rows[..|rows| - 1]) <= Links(head, rows)
    ensures LinkAt(head, rows, |rows| - 1) in Links(head, rows)
    ensures rows[|rows| - 1].hash == HashOf(h, LinkAt(head, rows, |rows| - 1))
  {
    var rest := rows[..|rows| - 1];
    assert LinkOk(h, head, rows, |rows| - 1);
    forall i | 0 <= i < |rest|
      ensures LinkOk(h, head, rest, i) && LinkAt(head, rest, i) == LinkAt(head, rows, i)
    {
      assert LinkOk(h, head, rows, i);
    }
  }

  /** Two intact trails from one head that end in the same stored hash hold the
      same events and hashes; the lengths agree by themselves when no row hashes
      to the head. */
  lemma {:induction false} SameEndSameRows(h: Hashing, head: string, a: seq<Row>, b: seq<Row>)
    requires FixedLength(h) && |head| == HASH_LENGTH
    requires Intact(h, head, a) && Intact(h, head, b)
    requires Trusted(h, Links(head, a) + Links(head, b))
    requires |a| == |b| || HeadUnused(h, head, Links(head, a) + Links(head, b))
    requires Prev(head, a, |a|) == Prev(head, b, |b|)
    ensures SameContent(a, b)
    decreases |a|
  {
    if a == [] || b == [] {
      if a != [] {
        DropLast(h, head, a);
      }
      if b != [] {
        DropLast(h, head, b);
      }
    } else {
      DropLast(h, head, a);
      DropLast(h, head, b);
      PrevLength(h, head, a, |a| - 1);
      PrevLength(h, head, b, |b| - 1);
      Unambiguous(h, Links(head, a) + Links(head, b), LinkAt(head, a, |a| - 1), LinkAt(head, b, |b| - 1));
      var a', b' := a[..|a| - 1], b[..|b| - 1];
      assert Prev(head, a', |a'|) == Prev(head, a, |a| - 1) && Prev(head, b', |b'|) == Prev(head, b, |b| - 1);
      SameEndSameRows(h, head, a', b');
      forall i | 0 <= i < |a| ensures a[i].event == b[i].event && a[i].hash == b[i].hash {
        if i < |a| - 1 {
          assert a'[i].event == b'[i].event && a'[i].hash == b'[i].hash;
        }
      }
    }
  }

  lemma {:induction false} PrefixIntact(h: Hashing, head: string, rows: seq<Row>, n: nat)
    requires Intact(h, head, rows) && n <= |rows|
    ensures Intact(h, head, rows[..n]) && Links(head, rows[..n]) <= Links(head, rows)
    decreases |rows|
  {
    if n < |rows| {
      DropLast(h, head, rows);
      PrefixIntact(h, head, rows[..|rows| - 1], n);
      assert rows[..|rows| - 1][..n] == rows[..n];
    } else {
      assert rows[..n] == rows;
    }
  }

  /** No hash repeats along an intact trail. */
  lemma HashesDistinct(h: Hashing, head: string, rows: seq<Row>, i: nat, j: nat)
    requires FixedLength(h) && |head| == HASH_LENGTH && Intact(h, head, rows) && i < j <= |rows|
    requires Trusted(h, Links(head, rows)) && HeadUnused(h, head, Links(head, rows))
    ensures Prev(head, rows, i) != Prev(head, rows, j)
  {
    if Prev(head, rows, i) == Prev(head, rows, j) {
      PrefixIntact(h, head, rows, i);
      PrefixIntact(h, head, rows, j);
      assert Prev(head, rows[..i], i) == Prev(head, rows, i) && Prev(head, rows[..j], j) == Prev(head, rows, j);
      assert Links(head, rows[..i]) + Links(head, rows[..j]) <= Links(head, rows);
      SameEndSameRows(h, head, rows[..i], rows[..j]);
    }
  }

  lemma LinksUpTo(h: Hashing, head: string, rows: seq<Row>, rows': seq<Row>, n: nat)
    requires n <= |rows| && n <= |rows'| && rows[..n] == rows'[..n] && Intact(h, head, rows)
    ensures forall i | 0 <= i < n :: LinkOk(h, head, rows', i)
  {
    forall i | 0 <= i < n ensures LinkOk(h, head, rows', i) {
      assert LinkOk(h, head, rows, i);
      assert rows[i] == rows[..n][i] && rows'[i] == rows'[..n][i];
      if i > 0 {
        assert rows[i - 1] == rows[..n][i - 1] && rows'[i - 1] == rows'[..n][i - 1];
      }
    }
  }

  /** An edited row is reported itself, unless its hash was recomputed to match;
      then the next row is. */
  lemma EditReported(h: Hashing, head: string, rows: seq<Row>, i: nat, e: AuditEvent, hash: string)
    requires FixedLength(h) && |head| == HASH_LENGTH && Intact(h, head, rows) && i + 1 < |rows|
    requires e != rows[i].event || hash != rows[i].hash
    requires
      var prev := Prev(head, rows, i);
      Trusted(h, Links(head, rows) + {(prev, e), (ChainHash(h, prev, e), rows[i + 1].event)})
    ensures
      FirstBroken(h, head, rows[i := Row(rows[i].seqNo, e, hash)])
      == Some(if hash == ChainHash(h, Prev(head, rows, i), e) then rows[i + 1].seqNo else rows[i].seqNo)
    ensures hash == rows[i].hash ==>
      FirstBroken(h, head, rows[i := Row(rows[i].seqNo, e, hash)]) == Some(rows[i].seqNo)
  {
    var rows', prev := rows[i := Row(rows[i].seqNo, e, hash)], Prev(head, rows, i);
    var links := Links(head, rows) + {(prev, e), (ChainHash(h, prev, e), rows[i + 1].event)};
    LinksUpTo(h, head, rows, rows', i);
    assert LinkOk(h, head, rows, i) && LinkOk(h, head, rows, i + 1);
    assert LinkAt(head, rows, i) in links && LinkAt(head, rows, i + 1) in links;
    if hash == ChainHash(h, prev, e) {
      if hash == rows[i].hash {
        Unambiguous(h, links, (prev, e), LinkAt(head, rows, i));
      }
      if LinkOk(h, head, rows', i + 1) {
        Unambiguous(h, links, (hash, rows[i + 1].event), LinkAt(head, rows, i + 1));
      }
      assert LinkOk(h, head, rows', i);
      FirstBrokenAt(h, head, rows', i + 1);
    } else {
      FirstBrokenAt(h, head, rows', i);
    }
  }

  /** A removed row is reported at the row that followed it. */
  lemma {:induction false} DeleteReported(h: Hashing, head: string, rows: seq<Row>, i: nat)
    requires FixedLength(h) && |head| == HASH_LENGTH && Intact(h, head, rows) && i + 1 < |rows|
    requires
      var links := Links(head, rows) + {(Prev(head, rows, i), rows[i + 1].event)};
      Trusted(h, links) && HeadUnused(h, head, links)
    ensures FirstBroken(h, head, rows[..i] + rows[i + 1..]) == Some(rows[i + 1].seqNo)
  {
    var rows', prev := rows[..i] + rows[i + 1..], Prev(head, rows, i);
    var links := Links(head, rows) + {(prev, rows[i + 1].event)};
    assert rows'[..i] == rows[..i] && rows'[i] == rows[i + 1];
    LinksUpTo(h, head, rows, rows', i);
    assert LinkOk(h, head, rows, i) && LinkOk(h, head, rows, i + 1);
    assert LinkAt(head, rows, i + 1) in links;
    PrevLength(h, head, rows, i);
    if LinkOk(h, head, rows', i) {
      Unambiguous(h, links, (prev, rows[i + 1].event), LinkAt(head, rows, i + 1));
      HashesDistinct(h, head, rows, i, i + 1);
    }
    FirstBrokenAt(h, head, rows', i);
  }

  /** A row put in front of row `i` is reported itself, unless its hash matches;
      then row `i` is. */
  lemma {:induction false} InsertReported(h: Hashing, head: string, rows: seq<Row>, i: nat, x: Row)
    requires FixedLength(h) && |head| == HASH_LENGTH && Intact(h, head, rows) && i < |rows|
    requires
      var prev := Prev(head, rows, i);
      var links := Links(head, rows) + {(prev, x.event), (ChainHash(h, prev, x.event), rows[i].event)};
      Trusted(h, links) && HeadUnused(h, head, links)
    ensures
      FirstBroken(h, head, rows[..i] + [x] + rows[i..])
      == Some(if x.hash == ChainHash(h, Prev(head, rows, i), x.event) then rows[i].seqNo else x.seqNo)
  {
    var rows', prev := rows[..i] + [x] + rows[i..], Prev(head, rows, i);
    var links := Links(head, rows) + {(prev, x.event), (ChainHash(h, prev, x.event), rows[i].event)};
    assert rows'[..i] == rows[..i] && rows'[i] == x && rows'[i + 1] == rows[i];
    LinksUpTo(h, head, rows, rows', i);
    assert LinkOk(h, head, rows, i) && LinkAt(head, rows, i) in links;
    PrevLength(h, head, rows, i);
    if x.hash == ChainHash(h, prev, x.event) {
      assert LinkOk(h, head, rows', i);
      if LinkOk(h, head, rows', i + 1) {
        Unambiguous(h, links, (x.hash, rows[i].event), LinkAt(head, rows, i));
        assert HashOf(h, (prev, x.event)) == prev;
        assert i > 0;
        assert LinkOk(h, head, rows, i - 1) && LinkAt(head, rows, i - 1) in links;
        PrevLength(h, head, rows, i - 1);
        Unambiguous(h, links, (prev, x.event), LinkAt(head, rows, i - 1));
        HashesDistinct(h, head, rows, i - 1, i);
      }
      FirstBrokenAt(h, head, rows', i + 1);
    } else {
      FirstBrokenAt(h, head, rows', i);
    }
  }

  // --- What the chain does not show ---

  /** Deleting the newest rows leaves an intact trail, and the newest row can be
      rewritten unseen exactly when its hash is recomputed. */
  lemma NewestRowsUnprotected(h: Hashing, head: string, rows: seq<Row>, n: nat, e: AuditEvent, hash: string)
    requires Intact(h, head, rows) && n < |rows|
    ensures FirstBroken(h, head, rows[..n]) == None
    ensures FirstBroken(h, head, rows[..n] + [Row(rows[n].seqNo, e, hash)]).None?
      <==> hash == ChainHash(h, Prev(head, rows, n), e)
  {
    var rows' := rows[..n] + [Row(rows[n].seqNo, e, hash)];
    PrefixIntact(h, head, rows, n);
    IntactIffUnbroken(h, head, rows[..n]);
    IntactIffUnbroken(h, head, rows');
    assert rows'[..n] == rows[..n];
    LinksUpTo(h, head, rows, rows', n);
    assert LinkOk(h, head, rows', n) <==> hash == ChainHash(h, Prev(head, rows, n), e);
  }

  /** Sequence numbers are not hashed: renumbering rows is never reported. */
  lemma {:induction false} RenumberingUnseen(h: Hashing, head: string, a: seq<Row>, b: seq<Row>)
    requires SameContent(a, b)
    ensures Intact(h, head, a) <==> Intact(h, head, b)
  {
    forall i | 0 <= i < |a| ensures LinkOk(h, head, a, i) <==> LinkOk(h, head, b, i) {
    }
  }
}
