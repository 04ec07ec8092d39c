/** The one structural fact of the CPU-side wave sampling: it sums at most as
    many waves as the shader declares, out of the bank main.js builds. */
module Waves {

  /** `WAVE_COUNT` of the vertex shader. */
  const SHADER_WAVE_COUNT: nat := 7
  /** Size of the golden-angle wave bank. */
  const WAVE_BANK_SIZE: nat := 10

  /** `Math.min(7, waveDirs.length)`: the number of waves sampleWaveHeight sums. */
  function SampledWaveCount(bankSize: nat): (n: nat)
    ensures n <= SHADER_WAVE_COUNT && n <= bankSize
    ensures n == SHADER_WAVE_COUNT || n == bankSize
  {
    if bankSize < SHADER_WAVE_COUNT then bankSize else SHADER_WAVE_COUNT
  }

  /** With the bank main.js builds, the CPU samples exactly the shader's waves,
      and the last three waves of the bank are never sampled. */
  lemma SamplingMatchesShader()
    ensures SampledWaveCount(WAVE_BANK_SIZE) == SHADER_WAVE_COUNT
    ensures WAVE_BANK_SIZE - SampledWaveCount(WAVE_BANK_SIZE) == 3
  {
  }
}
