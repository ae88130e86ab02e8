/**
  The ideal pinhole camera intrinsic: a single isotropic focal length f and a
  principal point (ppx, ppy), no skew and no lens distortion. The calibration
  matrix is K = [[f, 0, ppx], [0, f, ppy], [0, 0, 1]] and the object caches its
  inverse. Every change of parameters rebuilds the whole object, so K and its
  inverse never drift apart.
 */
module CameraPinhole {
  import opened Linear

  /** Image width and height are unsigned 32-bit integers. */
  type uint32 = x: int | 0 <= x < 0x1_0000_0000

  /** The intrinsic type discriminator; only the pinhole family is modelled. */
  datatype IntrinsicType = PinholeCamera

  /**
    The fields persisted for a pinhole camera, in the order they are written:
    the shared width and height, then focal_length, then principal_point.
   */
  datatype PinholeArchive = PinholeArchive(
    width: uint32,
    height: uint32,
    focalLength: real,
    principalPoint: seq<real>)

  /** K has the structured pinhole pattern: one shared focal, no skew, last row (0, 0, 1). */
  predicate HasPinholePattern(k: Mat3) {
    && k.r0.y == 0.0
    && k.r1 == Vec3(0.0, k.r0.x, k.r1.z)
    && k.r2 == Vec3(0.0, 0.0, 1.0)
  }

  /** The calibration matrix built from a focal length and a principal point. */
  function CalibrationMatrix(f: real, ppx: real, ppy: real): (k: Mat3)
    ensures HasPinholePattern(k)
    ensures k.r0.x == f && k.r0.z == ppx && k.r1.z == ppy
  {
    Mat3(Vec3(f, 0.0, ppx), Vec3(0.0, f, ppy), Vec3(0.0, 0.0, 1.0))
  }

  /** A matrix with the pinhole pattern is determined by its three free entries. */
  lemma PatternDeterminesMatrix(k: Mat3)
    requires HasPinholePattern(k)
    ensures k == CalibrationMatrix(k.r0.x, k.r0.z, k.r1.z)
  {
  }

  /** The closed-form inverse of the calibration matrix, with the same pinhole zero/one pattern. */
  function InverseCalibrationMatrix(f: real, ppx: real, ppy: real): (kinv: Mat3)
    requires f != 0.0
    ensures kinv.r0.x == kinv.r1.y && kinv.r0.x * f == 1.0
    ensures kinv.r0.y == kinv.r1.x == kinv.r2.x == kinv.r2.y == 0.0 && kinv.r2.z == 1.0
  {
    Mat3(Vec3(1.0 / f, 0.0, -ppx / f), Vec3(0.0, 1.0 / f, -ppy / f), Vec3(0.0, 0.0, 1.0))
  }

  /** The closed form is a two-sided inverse of K. */
  lemma InverseCalibrationMatrixInverts(f: real, ppx: real, ppy: real)
    requires f != 0.0
    ensures Mul(CalibrationMatrix(f, ppx, ppy), InverseCalibrationMatrix(f, ppx, ppy)) == Identity()
    ensures Mul(InverseCalibrationMatrix(f, ppx, ppy), CalibrationMatrix(f, ppx, ppy)) == Identity()
  {
  }

  /**
    Any exact inverse of K, from either side, is the closed form: whatever a
    general inversion routine returns for K, it is InverseCalibrationMatrix.
   */
  lemma InverseIsUnique(f: real, ppx: real, ppy: real, m: Mat3)
    requires f != 0.0
    requires Mul(CalibrationMatrix(f, ppx, ppy), m) == Identity()
          || Mul(m, CalibrationMatrix(f, ppx, ppy)) == Identity()
    ensures m == InverseCalibrationMatrix(f, ppx, ppy)
  {
    var k, kinv := CalibrationMatrix(f, ppx, ppy), InverseCalibrationMatrix(f, ppx, ppy);
    InverseCalibrationMatrixInverts(f, ppx, ppy);
    if Mul(k, m) == Identity() {
      calc {
        m;
        { MulIdentity(m); }
        Mul(Identity(), m);
        Mul(Mul(kinv, k), m);
        { MulAssoc(kinv, k, m); }
        Mul(kinv, Mul(k, m));
        Mul(kinv, Identity());
        { MulIdentity(kinv); }
        kinv;
      }
    } else {
      calc {
        m;
        { MulIdentity(m); }
        Mul(m, Identity());
        Mul(m, Mul(k, kinv));
        { MulAssoc(m, k, kinv); }
        Mul(Mul(m, k), kinv);
        Mul(Identity(), kinv);
        { MulIdentity(kinv); }
        kinv;
      }
    }
  }

  class PinholeIntrinsic {
    var w: uint32
    var h: uint32
    /** Calibration matrix; K() in the interface. */
    var K: Mat3
    /** Cached inverse of K; Kinv() in the interface. */
    var Kinv: Mat3

    /** K has the pinhole pattern with a nonzero focal, and Kinv is its inverse. */
    ghost predicate Valid()
      reads this
    {
      && HasPinholePattern(K)
      && K.r0.x != 0.0
      && Kinv == InverseCalibrationMatrix(K.r0.x, K.r0.z, K.r1.z)
    }

    constructor (w: uint32, h: uint32, focalLengthPix: real, ppx: real, ppy: real)
      requires focalLengthPix != 0.0
      ensures Valid()
      ensures this.w == w && this.h == h
      ensures K == CalibrationMatrix(focalLengthPix, ppx, ppy)
      ensures Focal() == focalLengthPix && PrincipalPoint() == Vec2(ppx, ppy)
    {
      this.w, this.h := w, h;
      K := CalibrationMatrix(focalLengthPix, ppx, ppy);
      Kinv := InverseCalibrationMatrix(focalLengthPix, ppx, ppy);
    }

    function GetType(): IntrinsicType {
      PinholeCamera
    }

    /** The focal length in pixels, K(0, 0). */
    function Focal(): real
      reads this
    {
      K.r0.x
    }

    /** The principal point, (K(0, 2), K(1, 2)). */
    function PrincipalPoint(): Vec2
      reads this
    {
      Vec2(K.r0.z, K.r1.z)
    }

    /** The bearing direction of pixel p before normalisation: Kinv * (p.x, p.y, 1). */
    function UnnormalizedBearing(p: Vec2): Vec3
      reads this
    {
      MatVec(Kinv, Homogeneous(p))
    }

    /** Camera plane to image plane: focal * p + principal point. */
    function Cam2Ima(p: Vec2): Vec2
      reads this
    {
      Add2(Scale2(Focal(), p), PrincipalPoint())
    }

    /** Image plane to camera plane: (p - principal point) / focal. */
    function Ima2Cam(p: Vec2): Vec2
      reads this
      requires Focal() != 0.0
    {
      Div2(Sub2(p, PrincipalPoint()), Focal())
    }

    predicate HaveDisto() {
      false
    }

    function AddDisto(p: Vec2): Vec2 {
      p
    }

    function RemoveDisto(p: Vec2): Vec2 {
      p
    }

    function GetUdPixel(p: Vec2): Vec2 {
      p
    }

    function GetDPixel(p: Vec2): Vec2 {
      p
    }

    /** A pixel-space error converted to camera-plane units; scaling back by the focal recovers it. */
    function ImagePlaneToCameraPlaneError(value: real): (e: real)
      reads this
      requires Focal() != 0.0
      ensures e * Focal() == value
    {
      value / Focal()
    }

    /**
      The optimizer's parameter vector: exactly three values in the fixed order
      focal, ppx, ppy, and they determine K.
     */
    function GetParams(): (params: seq<real>)
      reads this
      ensures |params| == 3
      ensures params[0] == Focal() && Vec2(params[1], params[2]) == PrincipalPoint()
      ensures HasPinholePattern(K) ==> K == CalibrationMatrix(params[0], params[1], params[2])
    {
      [K.r0.x, K.r0.z, K.r1.z]
    }

    /**
      Rebuilds the whole object from a parameter vector of length 3 and keeps
      the image size; any other length is refused and changes nothing.
     */
    method UpdateFromParams(params: seq<real>) returns (ok: bool)
      requires |params| == 3 ==> params[0] != 0.0
      modifies this
      ensures ok <==> |params| == 3
      ensures ok ==> && Valid()
                     && w == old(w) && h == old(h)
                     && GetParams() == params
                     && K == CalibrationMatrix(params[0], params[1], params[2])
                     && Kinv == InverseCalibrationMatrix(params[0], params[1], params[2])
      ensures !ok ==> unchanged(this)
    {
      if |params| == 3 {
        var rebuilt := new PinholeIntrinsic(w, h, params[0], params[1], params[2]);
        w, h, K, Kinv := rebuilt.w, rebuilt.h, rebuilt.K, rebuilt.Kinv;
        ok := true;
      } else {
        ok := false;
      }
    }

    /** The persisted fields: width, height, focal length and the two principal point coordinates. */
    function Save(): (a: PinholeArchive)
      reads this
      ensures a.width == w && a.height == h && |a.principalPoint| == 2
      ensures a.focalLength == Focal() && a.principalPoint == [PrincipalPoint().x, PrincipalPoint().y]
      ensures HasPinholePattern(K) ==> K == CalibrationMatrix(a.focalLength, a.principalPoint[0], a.principalPoint[1])
    {
      PinholeArchive(w, h, K.r0.x, [K.r0.z, K.r1.z])
    }

    /**
      Reads width and height, then the focal length and the principal point,
      and rebuilds the whole object from them.
     */
    method Load(a: PinholeArchive)
      requires |a.principalPoint| >= 2
      requires a.focalLength != 0.0
      modifies this
      ensures Valid()
      ensures w == a.width && h == a.height
      ensures K == CalibrationMatrix(a.focalLength, a.principalPoint[0], a.principalPoint[1])
      ensures Kinv == InverseCalibrationMatrix(a.focalLength, a.principalPoint[0], a.principalPoint[1])
      ensures |a.principalPoint| == 2 ==> Save() == a
    {
      w, h := a.width, a.height;
      var focalLength := a.focalLength;
      var pp := a.principalPoint;
      var rebuilt := new PinholeIntrinsic(w, h, focalLength, pp[0], pp[1]);
      w, h, K, Kinv := rebuilt.w, rebuilt.h, rebuilt.K, rebuilt.Kinv;
      assert |pp| == 2 ==> pp == [pp[0], pp[1]];
    }

    /** The object invariant: Kinv is a two-sided inverse of K. */
    lemma KinvInvertsK()
      requires Valid()
      ensures Mul(K, Kinv) == Identity() && Mul(Kinv, K) == Identity()
    {
      PatternDeterminesMatrix(K);
      InverseCalibrationMatrixInverts(K.r0.x, K.r0.z, K.r1.z);
    }

    /** With a nonzero focal, the two plane conversions are exact inverses. */
    lemma PlaneRoundTrip(p: Vec2)
      requires Focal() != 0.0
      ensures Ima2Cam(Cam2Ima(p)) == p
      ensures Cam2Ima(Ima2Cam(p)) == p
    {
    }

    /**
      The un-normalised bearing of a pixel is its camera-plane point lifted to
      depth 1, and K maps it back onto the pixel.
     */
    lemma BearingLiftsIma2Cam(p: Vec2)
      requires Valid()
      ensures UnnormalizedBearing(p) == Homogeneous(Ima2Cam(p))
      ensures MatVec(K, UnnormalizedBearing(p)) == Homogeneous(p)
    {
      KinvInvertsK();
      MatVecMul(K, Kinv, Homogeneous(p));
    }

    /** Converting a pixel displacement d is what Ima2Cam does to differences of points. */
    lemma ErrorScaleMatchesIma2Cam(p: Vec2, d: Vec2)
      requires Focal() != 0.0
      ensures Sub2(Ima2Cam(Add2(p, d)), Ima2Cam(p))
           == Vec2(ImagePlaneToCameraPlaneError(d.x), ImagePlaneToCameraPlaneError(d.y))
    {
    }

    /** The pinhole model has no distortion: every distortion hook is the identity. */
    lemma NoDistortion(p: Vec2)
      ensures GetType() == PinholeCamera && !HaveDisto()
      ensures AddDisto(p) == p && RemoveDisto(p) == p
      ensures GetUdPixel(p) == p && GetDPixel(p) == p
      ensures AddDisto(RemoveDisto(p)) == p && GetDPixel(GetUdPixel(p)) == p
    {
    }
  }

  /** Reading a camera's parameters and writing them back leaves it exactly as it was. */
  method ParamsRoundTrip(c: PinholeIntrinsic) returns (ok: bool)
    requires c.Valid()
    modifies c
    ensures ok && c.Valid()
    ensures c.w == old(c.w) && c.h == old(c.h) && c.K == old(c.K) && c.Kinv == old(c.Kinv)
  {
    ghost var k, kinv := c.K, c.Kinv;
    var params := c.GetParams();
    assert k == CalibrationMatrix(params[0], params[1], params[2]);
    ok := c.UpdateFromParams(params);
    assert c.Kinv == kinv;
  }

  /** Saving one camera and loading the archive into another reproduces it field for field. */
  method SaveThenLoad(src: PinholeIntrinsic, dst: PinholeIntrinsic)
    requires src.Valid()
    modifies dst
    ensures dst.Valid()
    ensures dst.w == old(src.w) && dst.h == old(src.h)
    ensures dst.K == old(src.K) && dst.Kinv == old(src.Kinv)
  {
    var archive := src.Save();
    dst.Load(archive);
  }

  /** A 1920x1080 camera with focal 1000 and principal point (960, 540) survives a save and load into any camera. */
  method SaveLoadExample(dst: PinholeIntrinsic)
    modifies dst
    ensures dst.Focal() == 1000.0 && dst.PrincipalPoint() == Vec2(960.0, 540.0)
    ensures dst.w == 1920 && dst.h == 1080
  {
    var src := new PinholeIntrinsic(1920, 1080, 1000.0, 960.0, 540.0);
    SaveThenLoad(src, dst);
  }
}
