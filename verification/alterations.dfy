/**
 * Alteration tags emitted by the ML engine, the wedding engine and the wedding
 * enhancement step, with the exact text the Python code uses for each.
 */
module Alterations {

  datatype Alteration =
    // ML engine body-type, height and fit blocks
    | ShoulderWidthAdjustment | ChestLetOut | ArmholeModification
    | WaistLetOut | TrouserWidening
    | WaistTakeIn | SleeveShortening | ChestTakeIn
    | MinorAdjustmentsAsNeeded
    | SleeveLengthening | TrouserLengthening | TrouserShortening
    | FitRelaxationRecommended | FitTighteningPossible
    // wedding engine body-type, fit and size blocks
    | ChestRoomOptimization | WaistAccommodation | ComfortableMovement
    | TailoredFit | ProfessionalAppearance
    | SlimFitOptimization | RelaxedFitComfort
    | PetiteSizingAccommodations | PlusSizeAccommodations
    // wedding-specific role and style tags
    | WeddingPhotoOptimization | ComfortableMovementForDancing | VestingCompatibility
    | SpeechComfortAdjustment | PhotoCoordinationWithGroom
    | ExtendedComfortForLongCeremony | EasySittingAdjustment
    | FormalOccasionEnhancements | BlackTieAppropriateFitting | BowTieCompatibility
    | BreathableFabricAdjustments

  function Text(a: Alteration): string {
    match a
    case ShoulderWidthAdjustment => "Shoulder_width_adjustment"
    case ChestLetOut => "Chest_let_out"
    case ArmholeModification => "Armhole_modification"
    case WaistLetOut => "Waist_let_out"
    case TrouserWidening => "Trouser_widening"
    case WaistTakeIn => "Waist_take_in"
    case SleeveShortening => "Sleeve_shortening"
    case ChestTakeIn => "Chest_take_in"
    case MinorAdjustmentsAsNeeded => "Minor_adjustments_as_needed"
    case SleeveLengthening => "Sleeve_lengthening"
    case TrouserLengthening => "Trouser_lengthening"
    case TrouserShortening => "Trouser_shortening"
    case FitRelaxationRecommended => "Fit_relaxation_recommended"
    case FitTighteningPossible => "Fit_tightening_possible"
    case ChestRoomOptimization => "Chest_room_optimization"
    case WaistAccommodation => "Waist_accommodation"
    case ComfortableMovement => "Comfortable_movement"
    case TailoredFit => "Tailored_fit"
    case ProfessionalAppearance => "Professional_appearance"
    case SlimFitOptimization => "Slim_fit_optimization"
    case RelaxedFitComfort => "Relaxed_fit_comfort"
    case PetiteSizingAccommodations => "Petite_sizing_accommodations"
    case PlusSizeAccommodations => "Plus_size_accommodations"
    case WeddingPhotoOptimization => "Wedding_photo_optimization"
    case ComfortableMovementForDancing => "Comfortable_movement_for_dancing"
    case VestingCompatibility => "Vesting_compatibility"
    case SpeechComfortAdjustment => "Speech_comfort_adjustment"
    case PhotoCoordinationWithGroom => "Photo_coordination_with_groom"
    case ExtendedComfortForLongCeremony => "Extended_comfort_for_long_ceremony"
    case EasySittingAdjustment => "Easy_sitting_adjustment"
    case FormalOccasionEnhancements => "Formal_occasion_enhancements"
    case BlackTieAppropriateFitting => "Black_tie_appropriate_fitting"
    case BowTieCompatibility => "Bow_tie_compatibility"
    case BreathableFabricAdjustments => "Breathable_fabric_adjustments"
  }

  /** Number of times a tag occurs in a list. */
  function Occurrences(alts: seq<Alteration>, tag: Alteration): nat {
    if |alts| == 0 then 0
    else (if alts[0] == tag then 1 else 0) + Occurrences(alts[1..], tag)
  }

  lemma {:induction false} OccurrencesAppend(a: seq<Alteration>, b: seq<Alteration>, tag: Alteration)
    ensures Occurrences(a + b, tag) == Occurrences(a, tag) + Occurrences(b, tag)
  {
    if |a| == 0 {
      assert a + b == b;
    } else {
      assert (a + b)[1..] == a[1..] + b;
      OccurrencesAppend(a[1..], b, tag);
    }
  }
}
