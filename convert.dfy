/** The length arithmetic of `image_to_audio` in app/convert.py: ten seconds
    at 44100 samples per second, an image resized to a square whose side is
    the sample count over the original height, and the pixel samples cut or
    zero-padded to exactly that count. Image decoding, resizing, the
    pixel-to-sample map and the WAV writer are parameters. */
module Convert {
  import opened Values

  const SampleRate: nat := 44100
  const Duration: nat := 10

  /** `num_samples`: 441000. */
  const NumSamples: nat := SampleRate * Duration

  /** `int(num_samples / img.size[1])`: the side of the resized square. A
      height of zero raises `ZeroDivisionError`. Python's true division of
      two integers below 2^53 truncates to the floor of the exact quotient,
      which is what `/` on naturals gives here. */
  function ResizedSide(height: nat): (r: Result<nat>)
    ensures r.Err? <==> height == 0
    ensures r.Ok? ==> r.value * height <= NumSamples < (r.value + 1) * height
  {
    if height == 0 then Err("division by zero") else Ok(NumSamples / height)
  }

  /** `n` copies of `zero`. */
  function Zeros<T>(n: nat, zero: T): (r: seq<T>)
    ensures |r| == n
    ensures forall i :: 0 <= i < n ==> r[i] == zero
  {
    if n == 0 then [] else Zeros(n - 1, zero) + [zero]
  }

  /** The trim-or-pad step: keep the first `NumSamples` samples, or append
      `zero` samples up to that count. */
  function FitToDuration<T>(samples: seq<T>, zero: T): (r: seq<T>)
    ensures |r| == NumSamples
    ensures forall i :: 0 <= i < |samples| && i < NumSamples ==> r[i] == samples[i]
    ensures forall i :: |samples| <= i < NumSamples ==> r[i] == zero
  {
    if |samples| > NumSamples then samples[..NumSamples]
    else samples + Zeros(NumSamples - |samples|, zero)
  }

  /** Samples of the right length pass through unchanged, so fitting twice
      is fitting once. */
  lemma {:induction false} FitToDurationIdempotent<T>(samples: seq<T>, zero: T)
    ensures FitToDuration(samples, zero) == samples <==> |samples| == NumSamples
    ensures FitToDuration(FitToDuration(samples, zero), zero) == FitToDuration(samples, zero)
  {
    var r := FitToDuration(samples, zero);
    if |samples| == NumSamples {
      assert r == samples;
    }
    assert FitToDuration(r, zero) == r;
  }

  /** Pillow's refusal to resize to an empty image. */
  const EmptyResizeMessage: string := "height and width must be > 0"

  /** `image_to_audio` up to the samples handed to `sf.write`, for an image
      `height` pixels tall. `resized(side)` gives the grayscale pixels, row by
      row, of the image resized to a `side` by `side` square; `toSample` maps
      a pixel to a sample. A height above 441000 gives a side of 0, which
      Pillow refuses to resize to. */
  function ImageToAudioSamples<T>(height: nat, resized: nat -> seq<Byte>, toSample: Byte -> T, zero: T)
    : (r: Result<seq<T>>)
    requires forall side: nat :: |resized(side)| == side * side
    ensures r.Err? <==> height == 0 || height > NumSamples
    ensures r.Ok? ==> |r.value| == NumSamples
    ensures r.Ok? ==> var side := NumSamples / height;
      (forall i :: 0 <= i < side * side && i < NumSamples ==> r.value[i] == toSample(resized(side)[i])) &&
      (forall i :: side * side <= i < NumSamples ==> r.value[i] == zero)
  {
    match ResizedSide(height)
    case Err(e) => Err(e)
    case Ok(side) =>
      if side == 0 then
        Err(EmptyResizeMessage)
      else
        assert height <= side * height by { MulMonotone(height, 1, side); }
        var pixels := resized(side);
        Ok(FitToDuration(seq(|pixels|, i requires 0 <= i < |pixels| => toSample(pixels[i])), zero))
  }

  /** Multiplying by a natural number keeps an order. */
  lemma MulMonotone(a: nat, b: nat, c: nat)
    requires b <= c
    ensures a * b <= a * c
  {
  }

  /** The square has more pixels than there are samples exactly when the
      original image is at most 663 pixels tall: such images are cut, taller
      ones are padded with silence. */
  lemma {:induction false} TrimmedIffAtMost663(height: nat)
    requires height > 0
    ensures var side := ResizedSide(height).value;
      side * side > NumSamples <==> height <= 663
  {
    var side := ResizedSide(height).value;
    assert side * height <= 441000 < (side + 1) * height;
    if height <= 663 {
      MulMonotone(side + 1, height, 663);
      assert side >= 665;
      MulMonotone(side, 665, side);
      MulMonotone(665, 665, side);
    } else {
      MulMonotone(side, 664, height);
      assert side <= 664;
      MulMonotone(side, side, 664);
      MulMonotone(664, side, 664);
    }
  }

  /** What `TrimmedIffAtMost663` means for the samples: an image at most 663
      pixels tall fills all 441000 samples with pixels, the rest of its
      square being cut off; a taller one leaves the end silent. */
  lemma {:induction false} ShortImagesCutTallImagesPadded<T>(height: nat, resized: nat -> seq<Byte>,
                                                          toSample: Byte -> T, zero: T)
    requires forall side: nat :: |resized(side)| == side * side
    requires 0 < height <= NumSamples
    ensures var side := NumSamples / height;
      var r := ImageToAudioSamples(height, resized, toSample, zero);
      r.Ok? &&
      (height <= 663 ==> forall i :: 0 <= i < NumSamples ==> r.value[i] == toSample(resized(side)[i])) &&
      (height > 663 ==> side * side < NumSamples && r.value[NumSamples - 1] == zero)
  {
    var side := NumSamples / height;
    TrimmedIffAtMost663(height);
    if height > 663 {
      assert side * side != NumSamples by {
        if side <= 664 {
          MulMonotone(side, side, 664);
          MulMonotone(664, side, 664);
        } else {
          MulMonotone(side, 665, side);
          MulMonotone(665, 665, side);
        }
      }
    }
  }
}
