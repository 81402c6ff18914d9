/**
 * `Material` (Material.cs) with its default and the `Lighting` function,
 * and the `PointLight` record it takes (PointLight.cs). Colours are Vector3.
 */
module Materials {
  import opened Numerics

  datatype PointLight = PointLight(position: Vector4, intensity: Vector3)

  datatype Material = Material(color: Vector3, ambient: real, diffuse: real, specular: real, shininess: real)

  /** `Material.Default`: white, ambient 0.1, diffuse 0.9, specular 0.9, shininess 200. */
  const Default: Material := Material(Vector3(1.0, 1.0, 1.0), 0.1, 0.9, 0.9, 200.0)

  /**
   * `Material.Lighting`: the effective colour (material colour times light
   * intensity, componentwise) weighted by ambient and by diffuse, plus the
   * light intensity weighted by specular. The point, eye and normal vectors
   * are taken and not used. A light of zero intensity gives black.
   */
  function Lighting(m: Material, light: PointLight, point: Vector4, eyev: Vector4, normalv: Vector4): (c: Vector3)
    ensures light.intensity == Vector3(0.0, 0.0, 0.0) ==> c == Vector3(0.0, 0.0, 0.0)
  {
    var effectiveColor := Mul3(m.color, light.intensity);
    var ambient := Scale3(effectiveColor, m.ambient);
    var diffuse := Scale3(effectiveColor, m.diffuse);
    var specular := Scale3(light.intensity, m.specular);
    Add3(Add3(ambient, diffuse), specular)
  }

  /**
   * One channel of the lighting, regrouped: the channel's colour times the
   * intensity, weighted by ambient + diffuse, plus the intensity weighted by
   * specular.
   */
  function Channel(m: Material, c: real, i: real): real {
    c * i * (m.ambient + m.diffuse) + i * m.specular
  }

  // ------------------------------------------------------------------ facts

  /** The result depends on neither the point, the eye vector, the normal nor the light's position. */
  lemma LightingIgnoresGeometry(m: Material, i: Vector3, p1: Vector4, p2: Vector4, pt1: Vector4, pt2: Vector4,
                                e1: Vector4, e2: Vector4, n1: Vector4, n2: Vector4)
    ensures Lighting(m, PointLight(p1, i), pt1, e1, n1) == Lighting(m, PointLight(p2, i), pt2, e2, n2)
  {
  }

  /** The result does not depend on the shininess. */
  lemma LightingIgnoresShininess(m: Material, s: real, light: PointLight, point: Vector4, eyev: Vector4, normalv: Vector4)
    ensures Lighting(m.(shininess := s), light, point, eyev, normalv) == Lighting(m, light, point, eyev, normalv)
  {
  }

  /** Lighting works channel by channel, each channel as `Channel` regroups it. */
  lemma LightingByChannel(m: Material, light: PointLight, point: Vector4, eyev: Vector4, normalv: Vector4)
    ensures Lighting(m, light, point, eyev, normalv)
         == Vector3(Channel(m, m.color.x, light.intensity.x),
                    Channel(m, m.color.y, light.intensity.y),
                    Channel(m, m.color.z, light.intensity.z))
  {
  }

  /** Scaling the light's intensity by k scales the result by k. */
  lemma LightingLinearInIntensity(m: Material, light: PointLight, k: real, point: Vector4, eyev: Vector4, normalv: Vector4)
    ensures Lighting(m, light.(intensity := Scale3(light.intensity, k)), point, eyev, normalv)
         == Scale3(Lighting(m, light, point, eyev, normalv), k)
  {
    var r, q := Lighting(m, light, point, eyev, normalv), Lighting(m, light.(intensity := Scale3(light.intensity, k)), point, eyev, normalv);
    LightingLinearChannels(m, light, k, point, eyev, normalv, q, r);
    ScaledComponents3(q, r, k);
  }

  /** The channels of `LightingLinearInIntensity`: q is the lighting under intensity scaled by k, r under the intensity itself. */
  lemma LightingLinearChannels(m: Material, light: PointLight, k: real, point: Vector4, eyev: Vector4, normalv: Vector4,
                               q: Vector3, r: Vector3)
    requires q == Lighting(m, light.(intensity := Scale3(light.intensity, k)), point, eyev, normalv)
    requires r == Lighting(m, light, point, eyev, normalv)
    ensures q.x == r.x * k && q.y == r.y * k && q.z == r.z * k
  {
    var i, j := light.intensity, Scale3(light.intensity, k);
    LightingByChannel(m, light, point, eyev, normalv);
    LightingByChannel(m, light.(intensity := j), point, eyev, normalv);
    ChannelsLinear(m, i, k, j, q, r);
  }

  /** The three channels at once, q under intensity j = i·k and r under i. */
  lemma ChannelsLinear(m: Material, i: Vector3, k: real, j: Vector3, q: Vector3, r: Vector3)
    requires j == Scale3(i, k)
    requires q == Vector3(Channel(m, m.color.x, j.x), Channel(m, m.color.y, j.y), Channel(m, m.color.z, j.z))
    requires r == Vector3(Channel(m, m.color.x, i.x), Channel(m, m.color.y, i.y), Channel(m, m.color.z, i.z))
    ensures q.x == r.x * k && q.y == r.y * k && q.z == r.z * k
  {
    ChannelLinear(m, m.color.x, i.x, k, j.x, q.x, r.x);
    ChannelLinear(m, m.color.y, i.y, k, j.y, q.y, r.y);
    ChannelLinear(m, m.color.z, i.z, k, j.z, q.z, r.z);
  }

  /** One channel of `LightingLinearInIntensity`: q is the channel under intensity j = i·k, r under i. */
  lemma ChannelLinear(m: Material, c: real, i: real, k: real, j: real, q: real, r: real)
    requires j == i * k && q == Channel(m, c, j) && r == Channel(m, c, i)
    ensures q == r * k
  {
  }

  /**
   * The default material under a white light gives (1.9, 1.9, 1.9) whatever
   * the geometry, which covers the eye-between-light-and-surface test.
   */
  lemma LightingDefaultWhite(position: Vector4, point: Vector4, eyev: Vector4, normalv: Vector4)
    ensures Lighting(Default, PointLight(position, Vector3(1.0, 1.0, 1.0)), point, eyev, normalv) == Vector3(1.9, 1.9, 1.9)
  {
  }
}
