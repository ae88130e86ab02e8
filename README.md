# Ideal pinhole camera intrinsic (openMVG `Pinhole_Intrinsic`)

A Dafny model of openMVG's ideal pinhole camera intrinsic. The camera has one
isotropic focal length `f`, a principal point `(ppx, ppy)`, no skew and no lens
distortion. It stores the calibration matrix
`K = [[f, 0, ppx], [0, f, ppy], [0, 0, 1]]` and a cached inverse `Kinv`. It
converts points between the image plane (pixels) and the camera plane. It hands
the optimizer a fixed-order parameter vector `[f, ppx, ppy]`. It persists width,
height, focal length and principal point. Both parameter update and loading
rebuild the whole object through the constructor, so `K` and `Kinv` never get
out of step.

Files:

- `linear.dfy`, module `Linear`: 2-vectors, 3-vectors and 3x3 matrices over
  `real`, with products, the identity matrix, and associativity of the product.
  It stands in for the Eigen types the source uses.
- `camera_pinhole.dfy`, module `CameraPinhole`: the calibration matrix and its
  closed-form inverse as functions, and the class `PinholeIntrinsic` with fields
  `w`, `h`, `K` and `Kinv`. Its object invariant `Valid()` says that `K` has the
  pinhole pattern with a nonzero focal and that `Kinv` is the closed-form
  inverse. The const member functions are Dafny functions that read `this`.
  `UpdateFromParams` and `Load` are methods that build a temporary object and
  copy all four fields, as `*this = Pinhole_Intrinsic(...)` does.

Numbers are exact reals, so the model states the algebra the code intends. It
does not state the rounding of doubles. The source computes `Kinv` with Eigen's
general `inverse()`, and the model stores the closed form
`[[1/f, 0, -ppx/f], [0, 1/f, -ppy/f], [0, 0, 1]]`. `InverseIsUnique` shows these
agree: any exact one-sided inverse of `K` is that closed form.

## Model

| member | source | states |
|---|---|---|
| `CameraPinhole.CalibrationMatrix` | src/openMVG/cameras/Camera_Pinhole.hpp:57 | the matrix built from `(f, ppx, ppy)` has the pinhole zero/one pattern, with `f` at (0,0) and (1,1), `ppx` at (0,2) and `ppy` at (1,2) |
| `CameraPinhole.PatternDeterminesMatrix` | src/openMVG/cameras/Camera_Pinhole.hpp:22-30 | a matrix with the pinhole pattern is fully determined by focal and principal point |
| `CameraPinhole.InverseCalibrationMatrix` | src/openMVG/cameras/Camera_Pinhole.hpp:58 | the cached inverse keeps the zero/one pattern and has `1/f` on the diagonal of its first two rows |
| `CameraPinhole.InverseCalibrationMatrixInverts` | src/openMVG/cameras/Camera_Pinhole.hpp:58 | for `f != 0` the closed form is a two-sided inverse: `K * Kinv == I` and `Kinv * K == I` |
| `CameraPinhole.InverseIsUnique` | src/openMVG/cameras/Camera_Pinhole.hpp:58 | any matrix that inverts `K` on either side equals the closed form, so the closed form is what `_K.inverse()` computes |
| `CameraPinhole.PinholeIntrinsic.constructor` | src/openMVG/cameras/Camera_Pinhole.hpp:51-59 | construction stores `w`, `h`, builds `K` from `(f, ppx, ppy)` and its inverse, establishes `Valid()`, and then `Focal() == f` and `PrincipalPoint() == (ppx, ppy)` |
| `CameraPinhole.PinholeIntrinsic.KinvInvertsK` | src/openMVG/cameras/Camera_Pinhole.hpp:57-58 | whenever the object invariant holds, `K * Kinv == I` and `Kinv * K == I` |
| `CameraPinhole.PinholeIntrinsic.PlaneRoundTrip` | src/openMVG/cameras/Camera_Pinhole.hpp:128-141 | with a nonzero focal, `ima2cam(cam2ima(p)) == p` and `cam2ima(ima2cam(p)) == p` for every point |
| `CameraPinhole.PinholeIntrinsic.BearingLiftsIma2Cam` | src/openMVG/cameras/Camera_Pinhole.hpp:117-121 | before normalisation, the bearing `Kinv * (p, 1)` is `(ima2cam(p), 1)`, and `K` maps it back to `(p, 1)` |
| `CameraPinhole.PinholeIntrinsic.ImagePlaneToCameraPlaneError` | src/openMVG/cameras/Camera_Pinhole.hpp:177-180 | the converted error times the focal gives back the pixel error |
| `CameraPinhole.PinholeIntrinsic.ErrorScaleMatchesIma2Cam` | src/openMVG/cameras/Camera_Pinhole.hpp:138-180 | converting a pixel displacement with the error scaling equals the difference `ima2cam` makes between the two displaced points |
| `CameraPinhole.PinholeIntrinsic.NoDistortion` | src/openMVG/cameras/Camera_Pinhole.hpp:147-243 | the type tag is pinhole, `have_disto()` is false, and `add_disto`, `remove_disto`, `get_ud_pixel` and `get_d_pixel` are the identity, so adding undoes removing |
| `CameraPinhole.PinholeIntrinsic.GetParams` | src/openMVG/cameras/Camera_Pinhole.hpp:199-203 | exactly three values, in the order focal, ppx, ppy, and they determine `K` |
| `CameraPinhole.PinholeIntrinsic.UpdateFromParams` | src/openMVG/cameras/Camera_Pinhole.hpp:212-223 | returns true iff the vector has length 3; on success the object is rebuilt and valid, `w` and `h` are kept, and `GetParams()` returns the vector; on failure no field changes |
| `CameraPinhole.ParamsRoundTrip` | src/openMVG/cameras/Camera_Pinhole.hpp:199-223 | writing back the parameters just read succeeds and leaves `w`, `h`, `K` and `Kinv` exactly as they were |
| `CameraPinhole.PinholeIntrinsic.Save` | src/openMVG/cameras/Camera_Pinhole.hpp:249-256 | the archive holds width, height, the focal and a two-element principal point, and these determine `K` |
| `CameraPinhole.PinholeIntrinsic.Load` | src/openMVG/cameras/Camera_Pinhole.hpp:263-272 | loading rebuilds the whole object from the archived fields, establishes the invariant, and saving afterwards gives back a well-formed archive unchanged |
| `CameraPinhole.SaveThenLoad` | src/openMVG/cameras/Camera_Pinhole.hpp:249-272 | saving one camera and loading the archive into another reproduces `w`, `h`, `K` and `Kinv` |
| `CameraPinhole.SaveLoadExample` | src/openMVG/cameras/Camera_Pinhole.hpp:51-272 | a 1920x1080 camera with focal 1000 and principal point (960, 540) loads back with the same focal, principal point and size |

`Focal`, `PrincipalPoint`, `Cam2Ima`, `Ima2Cam`, `UnnormalizedBearing`,
`GetType`, `HaveDisto`, `AddDisto`, `RemoveDisto`, `GetUdPixel` and `GetDPixel`
model the source's one-line member functions at lines 70-243. They carry no
contract of their own. The lemmas above state their properties.

## Left out

- `operator()` (bearing vector): the normalisation to unit length needs a square root. The model keeps the un-normalised `Kinv * (p, 1)` as `UnnormalizedBearing`.
- `get_projective_equivalent`: it delegates to `P_From_KRt` and `geometry::Pose3`, which are not part of this model.
- IEEE double rounding, NaN and infinity: numbers are exact reals.
- PinholeIntrinsic.constructor: requires a nonzero focal. The source's default constructor uses focal 0, and Eigen then produces a non-finite inverse that exact reals cannot represent. So the default-constructed state is not modelled.
- PinholeIntrinsic.UpdateFromParams: requires a nonzero first value when the vector has length 3, for the same reason. The source does not check it.
- PinholeIntrinsic.Load: requires a nonzero focal for the same reason. It also requires at least two principal-point values, because the source reads `pp[0]` and `pp[1]` from a vector that the archive may have resized.
- The cereal encoding, the `make_nvp` field names and the polymorphic registration under the tag `"pinhole"`: only the record of fields written and read is modelled, as `PinholeArchive`. Loading an archive with an unknown tag is handled by the registry, which is not part of this model.
- `IntrinsicBase` (Camera_Common.hpp) is not part of this model. Its width and height are plain fields of the class, its save and load are modelled as writing and reading them first, and `getType()` returns a constant tag.
- ParamsRoundTrip: states "nothing changed" as equality of the four fields rather than with `unchanged(c)`; the class has no other fields.
