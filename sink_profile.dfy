/**
 * TsDbSinkSensorProfile of server/OpenSslServer/ts_db_sinksensorprofile.cpp:
 * what the sink keeps about one sensor. K_ST is the session key and R a
 * random value; from them and three constants the profile derives four
 * schedules:
 *   K_ST, and K_STa = CMAC under the beta schedule of K_ST;
 *   K_STe = CMAC under the gamma schedule of R, and K_STea = CMAC under
 *   the epsilon schedule of K_STe.
 * The random R, the database row and the constants are inputs here.
 */
module SinkProfile {
  import opened Bytes
  import opened Aes
  import opened Wire
  import opened KeyDerivation

  /** A row of the sink_state table once its base64 columns are decoded. */
  datatype Row = Row(pid: seq<byte>, kst: seq<byte>, r: seq<byte>)

  /** What the database holds for a public ID: nothing, or one row. */
  datatype Lookup = Missing | Found(row: Row)

  predicate WellFormedRow(row: Row)
  {
    |row.pid| == ID_SIZE && |row.kst| == KEY_BYTES && |row.r| == KEY_BYTES
  }

  /** K_STe, the data-transfer key: the CMAC of R under gamma. */
  function DataKey(r: seq<byte>, gamma: seq<byte>): (k: seq<byte>)
    requires |r| == KEY_BYTES && |gamma| == KEY_BYTES
    ensures |k| == KEY_BYTES
  {
    MacKeyOf(r, gamma)
  }

  /** memset(buf, 0x0, buf.Length). */
  method Zero(buf: array<byte>)
    modifies buf
    ensures buf[..] == Fill(buf.Length, 0)
  {
    forall t | 0 <= t < buf.Length {
      buf[t] := 0;
    }
  }

  /** memcpy of a value into a buffer of its size. */
  method Store(buf: array<byte>, v: seq<byte>)
    requires buf.Length == |v|
    modifies buf
    ensures buf[..] == v
  {
    forall t | 0 <= t < buf.Length {
      buf[t] := v[t];
    }
  }

  class SinkSensorProfile {
    /** devicePublicId: the six ID bytes (and the terminator) it names. */
    var devicePublicId: seq<byte>
    /** The constants cBeta, cGamma and cEpsilon the profile links against. */
    const cBeta: array<byte>
    const cGamma: array<byte>
    const cEpsilon: array<byte>

    const Kst: array<byte>
    const R: array<byte>
    const KstSched: array<byte>
    const KstaSched: array<byte>
    const KsteSched: array<byte>
    const KsteaSched: array<byte>

    /** Whether the keys were set, by the K_ST constructor or from a row;
      * a profile built for an unknown ID is not. */
    ghost var loaded: bool

    /** The arrays the profile owns and writes. */
    ghost function Owned(): set<array<byte>>
    {
      {Kst, R, KstSched, KstaSched, KsteSched, KsteaSched}
    }

    /** Sizes and separation: the owned arrays are six distinct buffers,
      * none of them a constant. */
    ghost predicate Shaped()
    {
      && Kst.Length == KEY_BYTES && R.Length == KEY_BYTES
      && cBeta.Length == KEY_BYTES && cGamma.Length == KEY_BYTES && cEpsilon.Length == KEY_BYTES
      && KstSched.Length == SCHEDULE_SIZE && KstaSched.Length == SCHEDULE_SIZE
      && KsteSched.Length == SCHEDULE_SIZE && KsteaSched.Length == SCHEDULE_SIZE
      && Kst != R
      && Kst != KstSched && Kst != KstaSched && Kst != KsteSched && Kst != KsteaSched
      && R != KstSched && R != KstaSched && R != KsteSched && R != KsteaSched
      && KstSched != KstaSched && KstSched != KsteSched && KstSched != KsteaSched
      && KstaSched != KsteSched && KstaSched != KsteaSched && KsteSched != KsteaSched
      && cBeta !in Owned() && cGamma !in Owned() && cEpsilon !in Owned()
    }

    /** The four schedules are those generateKeyScheds derives from Kst
      * and R. */
    ghost predicate Derived()
      reads Kst, R, cBeta, cGamma, cEpsilon, KstSched, KstaSched, KsteSched, KsteaSched
      requires Shaped()
    {
      && KstSched[..] == Schedule(Kst[..])
      && KstaSched[..] == Schedule(MacKeyOf(Kst[..], cBeta[..]))
      && KsteSched[..] == Schedule(DataKey(R[..], cGamma[..]))
      && KsteaSched[..] == Schedule(MacKeyOf(DataKey(R[..], cGamma[..]), cEpsilon[..]))
    }

    /** Keys and schedules all zero. */
    ghost predicate Cleared()
      reads Kst, R, KstSched, KstaSched, KsteSched, KsteaSched
    {
      && Kst[..] == Fill(Kst.Length, 0) && R[..] == Fill(R.Length, 0)
      && KstSched[..] == Fill(KstSched.Length, 0) && KstaSched[..] == Fill(KstaSched.Length, 0)
      && KsteSched[..] == Fill(KsteSched.Length, 0) && KsteaSched[..] == Fill(KsteaSched.Length, 0)
    }

    /** The profile invariant: derived schedules once loaded, zeros before. */
    ghost predicate Valid()
      reads this, Kst, R, cBeta, cGamma, cEpsilon, KstSched, KstaSched, KsteSched, KsteaSched
    {
      Shaped() && (if loaded then Derived() else Cleared())
    }

    /** generateKeyScheds: K_ST and K_STa schedules by deriveKeyScheds
      * under beta; K_STe as the CMAC of R under the gamma schedule; the
      * K_STe and K_STea schedules by deriveKeyScheds under epsilon. */
    method GenerateKeyScheds()
      requires Shaped()
      modifies KstSched, KstaSched, KsteSched, KsteaSched
      ensures Derived()
    {
      DeriveKeyScheds(Kst, cBeta, KstSched, KstaSched);
      var gammaKeySched := new byte[SCHEDULE_SIZE];
      Expand(cGamma, gammaKeySched);
      var kste := CmacBuffer(gammaKeySched[..], R);
      DeriveKeyScheds(kste, cEpsilon, KsteSched, KsteaSched);
    }

    /** The K_ST constructor: R from the key generator (here the input r),
      * Kst a copy of K_ST, then all four schedules. */
    constructor WithKey(kst: array<byte>, pID: seq<byte>, r: seq<byte>,
                        beta: array<byte>, gamma: array<byte>, epsilon: array<byte>)
      requires kst.Length == KEY_BYTES && |r| == KEY_BYTES
      requires beta.Length == KEY_BYTES && gamma.Length == KEY_BYTES && epsilon.Length == KEY_BYTES
      ensures Valid() && loaded
      ensures fresh(Kst) && fresh(R) && fresh(KstSched) && fresh(KstaSched) && fresh(KsteSched) && fresh(KsteaSched)
      ensures devicePublicId == pID && Kst[..] == kst[..] && R[..] == r
      ensures cBeta == beta && cGamma == gamma && cEpsilon == epsilon
    {
      devicePublicId := pID;
      cBeta, cGamma, cEpsilon := beta, gamma, epsilon;
      Kst := new byte[KEY_BYTES];
      R := new byte[KEY_BYTES];
      KstSched := new byte[SCHEDULE_SIZE];
      KstaSched := new byte[SCHEDULE_SIZE];
      KsteSched := new byte[SCHEDULE_SIZE];
      KsteaSched := new byte[SCHEDULE_SIZE];
      loaded := false;
      new;
      SetKeys(kst[..], r);
    }

    /** The ID-only constructor: zero the keys and schedules; when the
      * database has a row for the ID (profileExists), retrieve it. */
    constructor FromDatabase(pID: seq<byte>, lookup: Lookup,
                             beta: array<byte>, gamma: array<byte>, epsilon: array<byte>)
      requires lookup.Found? ==> WellFormedRow(lookup.row)
      requires beta.Length == KEY_BYTES && gamma.Length == KEY_BYTES && epsilon.Length == KEY_BYTES
      ensures Valid() && loaded == lookup.Found?
      ensures fresh(Kst) && fresh(R) && fresh(KstSched) && fresh(KstaSched) && fresh(KsteSched) && fresh(KsteaSched)
      ensures cBeta == beta && cGamma == gamma && cEpsilon == epsilon
      ensures lookup.Missing? ==> devicePublicId == pID && Cleared()
      ensures lookup.Found? ==> devicePublicId == lookup.row.pid
                                && Kst[..] == lookup.row.kst && R[..] == lookup.row.r
    {
      devicePublicId := pID;
      cBeta, cGamma, cEpsilon := beta, gamma, epsilon;
      Kst := new byte[KEY_BYTES];
      R := new byte[KEY_BYTES];
      KstSched := new byte[SCHEDULE_SIZE];
      KstaSched := new byte[SCHEDULE_SIZE];
      KsteSched := new byte[SCHEDULE_SIZE];
      KsteaSched := new byte[SCHEDULE_SIZE];
      loaded := false;
      new;
      Clear();
      if lookup.Found? {
        Retrieve(lookup.row);
      }
    }

    /** The memsets of the ID-only constructor. */
    method Clear()
      requires Shaped()
      modifies Kst, R, KstSched, KstaSched, KsteSched, KsteaSched
      ensures Cleared()
    {
      Zero(Kst);
      Zero(R);
      Zero(KstSched);
      Zero(KstaSched);
      Zero(KsteSched);
      Zero(KsteaSched);
    }

    /** retrieve, past the query: the decoded row replaces the public ID,
      * Kst and R, and the schedules are derived from them. */
    method Retrieve(row: Row)
      requires Shaped() && WellFormedRow(row)
      modifies this, Kst, R, KstSched, KstaSched, KsteSched, KsteaSched
      ensures Valid() && loaded
      ensures devicePublicId == row.pid && Kst[..] == row.kst && R[..] == row.r
    {
      devicePublicId := row.pid;
      SetKeys(row.kst, row.r);
    }

    /** Kst and R set by memcpy, then generateKeyScheds. */
    method SetKeys(kst: seq<byte>, r: seq<byte>)
      requires Shaped() && |kst| == KEY_BYTES && |r| == KEY_BYTES
      modifies this, Kst, R, KstSched, KstaSched, KsteSched, KsteaSched
      ensures Valid() && loaded
      ensures devicePublicId == old(devicePublicId) && Kst[..] == kst && R[..] == r
    {
      Store(R, r);
      Store(Kst, kst);
      GenerateKeyScheds();
      loaded := true;
    }

    /** getKstSched: the K_ST schedule once loaded, zeros otherwise. */
    method GetKstSched() returns (s: array<byte>)
      requires Valid()
      ensures s == KstSched
      ensures loaded ==> s[..] == Schedule(Kst[..])
      ensures !loaded ==> s[..] == Fill(SCHEDULE_SIZE, 0)
    {
      s := KstSched;
    }

    /** getKstaSched: the schedule of the CMAC key of K_ST under beta. */
    method GetKstaSched() returns (s: array<byte>)
      requires Valid()
      ensures s == KstaSched
      ensures loaded ==> s[..] == Schedule(MacKeyOf(Kst[..], cBeta[..]))
      ensures !loaded ==> s[..] == Fill(SCHEDULE_SIZE, 0)
    {
      s := KstaSched;
    }

    /** getKsteSched: the schedule of K_STe, the CMAC of R under gamma. */
    method GetKsteSched() returns (s: array<byte>)
      requires Valid()
      ensures s == KsteSched
      ensures loaded ==> s[..] == Schedule(DataKey(R[..], cGamma[..]))
      ensures !loaded ==> s[..] == Fill(SCHEDULE_SIZE, 0)
    {
      s := KsteSched;
    }

    /** getKsteaSched: the schedule of the CMAC key of K_STe under epsilon. */
    method GetKsteaSched() returns (s: array<byte>)
      requires Valid()
      ensures s == KsteaSched
      ensures loaded ==> s[..] == Schedule(MacKeyOf(DataKey(R[..], cGamma[..]), cEpsilon[..]))
      ensures !loaded ==> s[..] == Fill(SCHEDULE_SIZE, 0)
    {
      s := KsteaSched;
    }

    /** getKst: the session key, zero before a key was set. */
    method GetKst() returns (k: array<byte>)
      requires Valid()
      ensures k == Kst && |k[..]| == KEY_BYTES
      ensures !loaded ==> k[..] == Fill(KEY_BYTES, 0)
    {
      k := Kst;
    }

    /** getR: the random value, zero before a key was set. */
    method GetR() returns (r: array<byte>)
      requires Valid()
      ensures r == R && |r[..]| == KEY_BYTES
      ensures !loaded ==> r[..] == Fill(KEY_BYTES, 0)
    {
      r := R;
    }
  }
}
