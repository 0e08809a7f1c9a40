// The request parser as the program runs it.
module LiveRequests {
  import opened Keys
  import opened Records
  import opened Decimal
  import opened Requests

  const REQ_MAX_BUFFSIZE := 10240

  class LiveRequest {
    const querybuf: array<Byte>
    var argv: seq<Option<seq<Byte>>>
    var pos: nat
    var multilen: nat
    var lastlen: nat
    var len: nat
    var idx: nat
    var cmd: Cmd

    /** Behind the bytes received the buffer is zero: that is where the header scan stops. */
    ghost predicate Valid()
      reads this, querybuf
    {
      && querybuf.Length == REQ_MAX_BUFFSIZE && len <= querybuf.Length && pos <= len + 1
      && forall i :: len <= i < querybuf.Length ==> querybuf[i] == 0
    }

    ghost function State(): Request
      requires Valid()
      reads this, querybuf
    {
      Request(querybuf[..len], argv, pos, multilen, lastlen, idx, cmd)
    }

    constructor ()
      ensures Valid() && fresh(querybuf) && State() == Request([], [], 0, 0, 0, 0, Ping)
    {
      querybuf := new Byte[REQ_MAX_BUFFSIZE](_ => 0);
      argv, pos, multilen, lastlen, len, idx, cmd := [], 0, 0, 0, 0, 0, Ping;
    }

    /** Append n bytes; false when they do not fit. */
    method Append(buf: seq<Byte>) returns (ok: bool)
      requires Valid()
      modifies this`len, querybuf
      ensures Valid() && ok == (old(len) + |buf| <= 10240)
      ensures State() == if ok then Requests.Append(old(State()), buf) else old(State())
    {
      if len + |buf| > REQ_MAX_BUFFSIZE {
        return false;
      }
      forall k | 0 <= k < |buf| {
        querybuf[len + k] := buf[k];
      }
      assert querybuf[..len] == old(querybuf[..len]);
      assert querybuf[len..len + |buf|] == buf;
      assert querybuf[..len + |buf|] == querybuf[..len] + querybuf[len..len + |buf|];
      len := len + |buf|;
      ok := true;
    }

    /** Scan a length header; something in the buffer has to stop the scan. */
    method StateLen() returns (sb: Option<seq<Byte>>)
      requires Valid() && ScanEnds(State().data, pos, false, true, REQ_MAX_BUFFSIZE)
      modifies this`pos
      ensures var r := Scan(old(State()).data, old(pos), false, true, []);
              && (sb == None <==> r == None)
              && (sb != None ==> r == Some((sb.value, pos)))
              && (sb == None ==> pos == old(pos))
      ensures Valid()
    {
      hide Class;
      var term, first, i := false, true, pos;
      var digits: seq<Byte> := [];
      ghost var data := querybuf[..len];
      while querybuf[i] != 0
        invariant i < querybuf.Length && AllDigits(digits)
        invariant Scan(data, i, term, first, digits) == Scan(data, pos, false, true, [])
        invariant ScanEnds(data, i, term, first, REQ_MAX_BUFFSIZE)
        invariant pos == old(pos)
        decreases querybuf.Length - i
      {
        var c := querybuf[i];
        if c == CR {
          term := true;
        } else if c == LF {
          if term {
            pos := i + 1;
            return Some(digits);
          }
          return None;
        } else if first {
          if Class(c) != 3 {
            return None;
          }
        } else if Class(c) == 2 {
          ClassTwoIsDigit(c);
          digits := digits + [c];
        } else {
          return None;
        }
        first := false;
        i := i + 1;
      }
      sb := None;
    }

    /** Find the command of a name in the table. */
    method Lookup(v: array<Byte>) returns (c: Cmd)
      ensures c == LookupFrom(v[..], 0)
    {
      for l := 0 to |METHODS|
        invariant LookupFrom(v[..], l) == LookupFrom(v[..], 0)
      {
        if CutAtNul(v[..]) == METHODS[l].0 {
          return METHODS[l].1;
        }
      }
      c := Unknown;
    }

    /** Turn capital letters into small ones, in place. */
    method ToLower(v: array<Byte>)
      modifies v
      ensures v[..] == LowerCase(old(v[..]))
    {
      for k := 0 to v.Length
        invariant forall j :: 0 <= j < k ==> v[j] == LowerByte(old(v[j]))
        invariant forall j :: k <= j < v.Length ==> v[j] == old(v[j])
      {
        if 65 <= v[k] <= 90 {
          v[k] := v[k] + 32;
        }
      }
    }

    /** Copy the next n bytes out of the buffer. */
    method CopyArg(n: nat) returns (v: array<Byte>)
      requires Valid() && pos + n < len
      ensures fresh(v) && v[..] == State().data[pos..pos + n]
    {
      v := new Byte[n];
      forall k | 0 <= k < n {
        v[k] := querybuf[pos + k];
      }
      assert v[..] == querybuf[pos..pos + n];
      assert querybuf[..len][pos..pos + n] == querybuf[pos..pos + n];
    }

    /** Take the next n bytes as an argument. */
    method TakeArg(n: nat)
      requires Valid() && pos + n < len && idx < |argv| && multilen > 0
      modifies this
      ensures Valid() && State() == Took(old(State()), n)
    {
      hide LookupFrom;
      hide LowerCase;
      var v := CopyArg(n);
      if idx == 0 {
        ToLower(v);
        cmd := Lookup(v);
      }
      assert querybuf[..len] == old(querybuf[..len]);
      argv := argv[idx := Some(v[..])];
      idx := idx + 1;
      pos := pos + (n + 2);
      lastlen := 0;
      multilen := multilen - 1;
    }

    /** Move what is left to the front and clear the rest, or reset. */
    method Finish()
      requires Valid()
      modifies this, querybuf
      ensures Valid() && State() == Finished(old(State()))
    {
      if pos < len {
        var bufclone := querybuf[pos..len];
        assert bufclone == querybuf[..len][pos..];
        var buflen := len - pos;
        forall k | 0 <= k < querybuf.Length {
          querybuf[k] := if k < buflen then bufclone[k] else 0;
        }
        len := buflen;
        pos := 0;
        assert querybuf[..len] == bufclone;
      } else {
        forall k | 0 <= k < querybuf.Length {
          querybuf[k] := 0;
        }
        multilen, lastlen, pos, idx, len := 0, 0, 0, 0, 0;
      }
    }

    /** Parse what has arrived. */
    method Parse() returns (status: Status)
      requires Valid() && ParseInside(State(), REQ_MAX_BUFFSIZE)
      modifies this, querybuf
      ensures Valid() && (status, State()) == Requests.Parse(old(State()))
    {
      hide Scan;
      hide Took;
      hide Finished;
      hide Atoi;
      if multilen == 0 {
        var sb := StateLen();
        if sb == None {
          return Failed;
        }
        multilen := Atoi(sb.value);
        argv := seq(multilen, _ => None);
      }
      status := ParseArgs();
    }

    /** The loop over the arguments. */
    method ParseArgs() returns (status: Status)
      requires Valid() && LoopInside(State(), REQ_MAX_BUFFSIZE)
      modifies this, querybuf
      ensures Valid() && (status, State()) == Loop(old(State()))
    {
      hide Scan;
      hide Took;
      hide Finished;
      hide Atoi;
      while multilen != 0
        invariant Valid() && LoopInside(State(), REQ_MAX_BUFFSIZE)
        invariant Loop(State()) == Loop(old(State()))
        decreases multilen
      {
        var n := lastlen;
        if lastlen == 0 {
          var sb := StateLen();
          if sb == None {
            return Failed;
          }
          n := Atoi(sb.value);
        }
        if pos + n >= len {
          lastlen := n;
          return Waiting;
        }
        if idx >= |argv| {
          return Overrun;
        }
        TookCounts(State(), n);
        TakeArg(n);
      }
      Finish();
      status := Complete;
    }

    lemma {:induction false} ClassTwoIsDigit(c: Byte)
      requires Class(c) == 2
      ensures 48 <= c <= 57
    {
    }
  }
}
