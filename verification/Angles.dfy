/** EHconvAng over the reals: radians, degrees, and degrees packed as
    DDDMMMSSS.ss. */
module Angles {
  import opened Reals

  const PI := 3.14159265358979324
  const R2D := 180.0 / PI
  const D2R := 1.0 / R2D
  const TINY := 0.0000001

  datatype Dms = Dms(deg: int, min: int, sec: real) {
    function Value(): real { deg as real + min as real / 60.0 + sec / 3600.0 }

    function Packed(): real { (deg * 1000000 + min * 1000) as real + sec }

    predicate Upward() { deg >= 0 && min >= 0 && sec >= 0.0 }

    predicate Downward() { deg <= 0 && min <= 0 && sec <= 0.0 }

    /** Minutes and seconds below 60, all of one sign. */
    predicate Canonical() { (Upward() || Downward()) && -59 <= min <= 59 && Abs(sec) < 60.0 }
  }

  /** Degrees, minutes and seconds of an angle, before any correction. */
  function Cut(angle: real): Dms {
    var deg := Trunc(angle);
    var min := Trunc((angle - deg as real) * 60.0);
    Dms(deg, min, (angle - deg as real - min as real / 60.0) * 3600.0)
  }

  /** Tiny seconds are dropped, seconds at 60 are carried. */
  function Carry(d: Dms): Dms {
    var sec := if Abs(d.sec) < TINY then 0.0 else d.sec;
    var over := Abs(sec - 60.0) < TINY || sec > 60.0;
    var sec1 := if !over then sec else if sec - 60.0 < 0.0 then 0.0 else sec - 60.0;
    var min1 := if over then d.min + 1 else d.min;
    if min1 == 60 then Dms(d.deg + 1, 0, sec1) else Dms(d.deg, min1, sec1)
  }

  function Unpack(packed: real): Dms {
    var deg := Trunc(packed / 1000000.0);
    var min := Trunc((packed - (deg * 1000000) as real) / 1000.0);
    Dms(deg, min, packed - (deg * 1000000) as real - (min * 1000) as real)
  }

  function DegToDms(angle: real): real { Carry(Cut(angle)).Packed() }

  function DmsToDeg(packed: real): real { Unpack(packed).Value() }

  datatype Code = RadDeg | DegRad | DmsDeg | DegDms | RadDms | DmsRad

  function Converted(angle: real, code: Code): real {
    match code
    case RadDeg => angle * R2D
    case DegRad => angle * D2R
    case DmsDeg => DmsToDeg(angle)
    case DegDms => DegToDms(angle)
    case RadDms => DegToDms(angle * R2D)
    case DmsRad => DmsToDeg(angle) * D2R
  }

  /** The three statements that take an angle in degrees apart, and the
      corrections after them. */
  method PackDegrees(inAngle: real) returns (outAngle: real)
    ensures outAngle == DegToDms(inAngle)
  {
    var deg := Trunc(inAngle);
    var min := Trunc((inAngle - deg as real) * 60.0);
    var sec := (inAngle - deg as real - min as real / 60.0) * 3600.0;
    if Abs(sec - 0.0) < TINY {
      sec := 0.0;
    }
    if Abs(sec - 60.0) < TINY || sec > 60.0 {
      sec := sec - 60.0;
      min := min + 1;
      if sec < 0.0 {
        sec := 0.0;
      }
    }
    if min == 60 {
      min := min - 60;
      deg := deg + 1;
    }
    outAngle := (deg * 1000000 + min * 1000) as real + sec;
  }

  method UnpackDegrees(inAngle: real) returns (outAngle: real)
    ensures outAngle == DmsToDeg(inAngle)
  {
    var deg := Trunc(inAngle / 1000000.0);
    var min := Trunc((inAngle - (deg * 1000000) as real) / 1000.0);
    var sec := inAngle - (deg * 1000000) as real - (min * 1000) as real;
    outAngle := deg as real + min as real / 60.0 + sec / 3600.0;
  }

  /** EHconvAng. */
  method ConvAng(inAngle: real, code: Code) returns (outAngle: real)
    ensures outAngle == Converted(inAngle, code)
  {
    match code
    case RadDeg => outAngle := inAngle * R2D;
    case DegRad => outAngle := inAngle * D2R;
    case DmsDeg => outAngle := UnpackDegrees(inAngle);
    case DegDms => outAngle := PackDegrees(inAngle);
    case RadDms => outAngle := PackDegrees(inAngle * R2D);
    case DmsRad =>
      outAngle := UnpackDegrees(inAngle);
      outAngle := outAngle * D2R;
  }

  // ------------------------------------------------------------------ the parts

  lemma CutParts(angle: real)
    ensures Cut(angle).Canonical() && Cut(angle).Value() == angle
    ensures angle >= 0.0 ==> Cut(angle).Upward()
    ensures angle <= 0.0 ==> Cut(angle).Downward()
  {
  }

  lemma CutIs(d: Dms)
    requires d.Canonical()
    ensures Cut(d.Value()) == d
  {
    var v := d.Value();
    TruncIs(v, d.deg);
    assert (v - d.deg as real) * 60.0 == d.min as real + d.sec / 60.0;
    TruncIs((v - d.deg as real) * 60.0, d.min);
  }

  lemma UnpackIs(d: Dms)
    requires (d.Upward() || d.Downward()) && -1000 < d.min < 1000 && Abs(d.sec) < 1000.0
    ensures Unpack(d.Packed()) == d
  {
    var p := d.Packed();
    TruncIs(p / 1000000.0, d.deg);
    TruncIs((p - (d.deg * 1000000) as real) / 1000.0, d.min);
  }

  lemma UnpackParts(packed: real)
    ensures var d := Unpack(packed);
            d.Packed() == packed && (d.Upward() || d.Downward()) && -1000 < d.min < 1000 && Abs(d.sec) < 1000.0
  {
  }

  /** The carries leave minutes and seconds below 60, and move the angle by less
      than a ten millionth of an arc second. */
  lemma CarrySmall(d: Dms)
    requires d.Canonical()
    ensures Carry(d).Canonical() && Abs(Carry(d).Value() - d.Value()) * 3600.0 < TINY
  {
  }

  lemma CarryStays(d: Dms)
    requires d.Canonical()
    ensures Carry(d) == d <==> d.sec == 0.0 || (Abs(d.sec) >= TINY && d.sec <= 60.0 - TINY)
  {
  }

  // ------------------------------------------------------------- the round trips

  /** Packing any angle gives minutes and seconds below 60, and unpacking gives
      the angle to a ten millionth of an arc second, for both signs. */
  lemma DegreesBack(angle: real)
    ensures Unpack(DegToDms(angle)).Canonical()
    ensures Abs(DmsToDeg(DegToDms(angle)) - angle) * 3600.0 < 0.0000001
  {
    var d := Cut(angle);
    CutParts(angle);
    CarrySmall(d);
    UnpackIs(Carry(d));
  }

  /** A packed angle survives exactly when its minutes and seconds are below 60
      and its seconds are not within a ten millionth of a carry. */
  lemma PackedBack(packed: real)
    ensures var d := Unpack(packed);
            DegToDms(DmsToDeg(packed)) == packed <==>
              d.Canonical() && (d.sec == 0.0 || (Abs(d.sec) >= 0.0000001 && d.sec <= 59.9999999))
  {
    var d := Unpack(packed);
    UnpackParts(packed);
    DegreesBack(d.Value());
    if d.Canonical() {
      CutIs(d);
      CarryStays(d);
      CarrySmall(d);
      UnpackIs(Carry(d));
    }
  }

  /** Which way a packed angle counts: degrees in millions, minutes in thousands,
      seconds. Unpacking is exact for whole degrees and up to three digits of minutes and
      seconds; packing for minutes and seconds below 60 that are not next to a carry. Both
      for either sign. */
  lemma PackedIs(deg: int, min: int, sec: real, packed: real, angle: real)
    requires packed == (deg * 1000000 + min * 1000) as real + sec && angle == deg as real + min as real / 60.0 + sec / 3600.0
    requires (deg >= 0 && 0 <= min < 1000 && 0.0 <= sec < 1000.0) || (deg <= 0 && -1000 < min <= 0 && -1000.0 < sec <= 0.0)
    ensures Converted(packed, DmsDeg) == angle
    ensures -60 < min < 60 && (sec == 0.0 || 0.0000001 <= sec <= 59.9999999 || -60.0 < sec <= -0.0000001) ==>
              Converted(angle, DegDms) == packed
  {
    var d := Dms(deg, min, sec);
    assert packed == d.Packed() && angle == d.Value();
    UnpackIs(d);
    if -60 < min < 60 && -60.0 < sec < 60.0 {
      CutIs(d);
      CarryStays(d);
    }
  }

  /** Which way radians go, for every angle: 180 degrees are pi, pi is the number, and the
      two packed conversions go through degrees. */
  lemma RadiansAre(angle: real)
    ensures Converted(angle, DegRad) * 180.0 == angle * PI && Converted(angle, RadDeg) * PI == angle * 180.0
    ensures Converted(angle, RadDms) == Converted(Converted(angle, RadDeg), DegDms)
    ensures Converted(angle, DmsRad) == Converted(Converted(angle, DmsDeg), DegRad)
    ensures 3.1415926535897932 < PI < 3.1415926535897933
  {
    FactorsAre();
    Product(angle, R2D, PI, 180.0);
    Product(angle, D2R, 180.0, PI);
  }

  lemma FactorsAre()
    ensures R2D * PI == 180.0 && D2R * 180.0 == PI
  {
  }

  lemma Product(x: real, r: real, y: real, z: real)
    requires r * y == z
    ensures x * r * y == x * z
  {
    assert x * r * y == x * (r * y);
  }

  /** So half a turn is 180 degrees and pi radians, plain and packed. */
  lemma HalfTurn()
    ensures Converted(180.0, DegRad) == PI && Converted(PI, RadDeg) == 180.0
    ensures Converted(PI, RadDms) == 180000000.0 && Converted(180000000.0, DmsRad) == PI
  {
    RadiansAre(180.0);
    RadiansAre(PI);
    RadiansAre(180000000.0);
    PackedIs(180, 0, 0.0, 180000000.0, 180.0);
  }

  /** Degrees and radians are inverse. */
  lemma RadiansBack(angle: real)
    ensures Converted(Converted(angle, RadDeg), DegRad) == angle && Converted(Converted(angle, DegRad), RadDeg) == angle
  {
    Regroup(angle, R2D, D2R);
  }

  /** The way from radians through packed degrees is as exact: compared in
      degrees, the two differ by less than a ten millionth of an arc second. */
  lemma PackedRadiansBack(angle: real)
    ensures var back := Converted(Converted(angle, RadDms), DmsRad);
            Abs(Converted(back, RadDeg) - Converted(angle, RadDeg)) * 3600.0 < 0.0000001
  {
    var deg := ThroughDegrees(angle, Converted(angle, RadDeg));
    assert Converted(Converted(Converted(angle, RadDms), DmsRad), RadDeg) == deg;
  }

  lemma ThroughDegrees(angle: real, x: real) returns (deg: real)
    requires x == Converted(angle, RadDeg)
    ensures Abs(deg - x) * 3600.0 < TINY && Converted(Converted(Converted(angle, RadDms), DmsRad), RadDeg) == deg
  {
    deg := UnpackedAgain(x);
    RadiansBack(deg);
    RadiansPacked(angle);
    PackedRadians(DegToDms(x));
  }

  lemma RadiansPacked(angle: real)
    ensures Converted(angle, RadDms) == DegToDms(Converted(angle, RadDeg))
  {
  }

  lemma PackedRadians(dms: real)
    ensures Converted(dms, DmsRad) == Converted(DmsToDeg(dms), DegRad)
  {
  }

  lemma UnpackedAgain(angle: real) returns (deg: real)
    ensures deg == DmsToDeg(DegToDms(angle)) && Abs(deg - angle) * 3600.0 < TINY
  {
    DegreesBack(angle);
    deg := DmsToDeg(DegToDms(angle));
  }

  lemma Regroup(x: real, r: real, d: real)
    requires r * d == 1.0
    ensures x * r * d == x && x * d * r == x
  {
    assert x * r * d == x * (r * d) && x * d * r == x * (r * d);
  }
}
